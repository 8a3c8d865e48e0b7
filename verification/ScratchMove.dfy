/**
 `archive_one` (nix/modules/scratch/scratch-overflow.py) and `restore_one`
 (nix/modules/scratch/scratch-restore.py) step by step. Before every step users may edit
 anything, any step may fail, with or without its effect, and the machine may crash; in every
 state gone through, each path still reads as what its user last wrote.
*/
module ScratchMove {
  import opened Wrappers
  import opened ScratchDisk

  /** What happens around one step. `data` is what a damaged read or write yields instead. */
  datatype Turn = Turn(edits: seq<Edit>, crash: bool, fails: bool, effect: bool, damaged: bool, data: Content)

  datatype Snapshot = Snapshot(disk: Disk, truth: Truth, lost: set<string>)

  // Moved: the file was archived or restored. Kept: skipped or failed. Crashed: the machine went down.
  datatype Outcome = Moved | Kept | Crashed

  const CHUNK: nat := 8388608

  /** `st` was read at p: whatever is at p now with its ctime is that file. */
  ghost predicate Known(d: Disk, p: string, st: FileData) {
    st.ctime < d.clock && (Matches(d, p, st.ctime) ==> SameFile(d.scratch[User(p)].data, st))
  }

  ghost predicate ColdKnown(d: Disk, t: string, st: FileData) {
    st.ctime < d.clock && (ColdMatches(d, t, st.ctime) ==> SameFile(d.cold[t], st))
  }

  lemma KnownStill(d: Disk, next: Disk, p: string, st: FileData)
    requires Known(d, p, st) && next.scratch == d.scratch && next.clock >= d.clock
    ensures Known(next, p, st) && (Matches(next, p, st.ctime) <==> Matches(d, p, st.ctime))
  {
  }

  /** (ino, size, mtime, ctime): what the tools compare. */
  predicate SameStamps(a: FileData, b: FileData) {
    a.ino == b.ino && |a.content| == |b.content| && a.mtime == b.mtime && a.ctime == b.ctime
  }

  ghost predicate Stamped(d: Disk) {
    && (forall place :: place in d.scratch && d.scratch[place].File? ==> d.scratch[place].data.ctime < d.clock)
    && (forall t :: t in d.cold ==> d.cold[t].ctime < d.clock)
  }

  lemma EditStamped(d: Disk, e: Edit)
    requires Stamped(d)
    ensures Stamped(Edited(d, e))
  {
  }

  // ----- the steps' effects -----

  /** `os.replace(part, dest)`: the verified copy becomes the cold file. */
  function Published(d: Disk, p: string, data: Content, st: FileData): Disk {
    d.(cold := d.cold[p := FileData(data, d.clock, st.mode, st.owner, st.atime, st.mtime, d.clock)],
      clock := d.clock + 1)
  }

  function Dropped(d: Disk, t: string): Disk {
    d.(cold := d.cold - {t}, clock := d.clock + 1)
  }

  /** `os.symlink(dest, link_tmp)`, under a name never used before. */
  function Planted(d: Disk, p: string): Disk {
    d.(scratch := d.scratch[Temp(d.clock) := Link(p)], clock := d.clock + 1)
  }

  function Cleared(d: Disk, n: nat): Disk {
    d.(scratch := d.scratch - {Temp(n)}, clock := d.clock + 1)
  }

  /** `os.replace(link_tmp, path)` */
  function Swapped(d: Disk, n: nat, p: string): Disk {
    d.(scratch := (d.scratch - {Temp(n)})[User(p) := Link(p)], clock := d.clock + 1)
  }

  /** `os.replace(part, link)`: the verified copy takes the link's place. */
  function Returned(d: Disk, link: Place, data: Content, tst: FileData, asRoot: bool, runner: nat): Disk {
    var now := d.clock as int;
    var f := FileData(data, d.clock, tst.mode, if asRoot then tst.owner else runner,
      if now >= tst.atime then now else tst.atime, tst.mtime, d.clock);
    d.(scratch := d.scratch[link := File(f)], clock := d.clock + 1)
  }

  // ----- and what they lose -----

  lemma PublishKeeps(d: Disk, truth: Truth, lost: set<string>, p: string, data: Content, st: FileData)
    requires InvBut(d, truth, lost) && Stamped(d) && !IsLink(d, p)
    ensures InvBut(Published(d, p, data, st), truth, lost) && Stamped(Published(d, p, data, st))
  {
  }

  /** Removing a cold file loses exactly what a link at its place showed. */
  lemma DropKeeps(d: Disk, truth: Truth, lost: set<string>, t: string)
    requires InvBut(d, truth, lost) && Stamped(d)
    ensures InvBut(Dropped(d, t), truth, if IsLink(d, t) then lost + {t} else lost) && Stamped(Dropped(d, t))
  {
  }

  lemma PlantKeeps(d: Disk, truth: Truth, lost: set<string>, p: string, n: nat)
    requires InvBut(d, truth, lost) && Stamped(d)
    ensures InvBut(Planted(d, p), truth, lost) && Stamped(Planted(d, p))
    ensures InvBut(Cleared(d, n), truth, lost) && Stamped(Cleared(d, n))
  {
  }

  /** The cold copy holds what the file at p holds. */
  predicate ReadyToSwap(d: Disk, p: string) {
    IsFile(d, p) && p in d.cold && d.cold[p].content == d.scratch[User(p)].data.content
  }

  /** There is something at p, and it is not what was copied. */
  predicate Differs(d: Disk, p: string, copied: Content) {
    User(p) in d.scratch && Read(d, p) != Some(copied)
  }

  function LostBy(d: Disk, p: string, copied: Content, lost: set<string>): set<string> {
    if Differs(d, p, copied) then lost + {p} else lost
  }

  lemma SwapKeeps(d: Disk, truth: Truth, lost: set<string>, n: nat, p: string)
    requires InvBut(d, truth, lost) && Stamped(d) && p in d.cold
    ensures var d' := Swapped(d, n, p);
      InvBut(d', truth, LostBy(d, p, d.cold[p].content, lost)) && Stamped(d')
  {
  }

  lemma ReturnKeeps(
    d: Disk, truth: Truth, lost: set<string>, link: Place, data: Content, tst: FileData, asRoot: bool, runner: nat)
    requires InvBut(d, truth, lost) && Stamped(d)
    ensures var d' := Returned(d, link, data, tst, asRoot, runner);
      InvBut(d', truth, if link.User? then LostBy(d, link.rel, data, lost) else lost) && Stamped(d')
  {
  }

  /**
   How a path comes to be lost: a rename put a copy where something else was by then, or a cold file was
   removed under the link that led to it. `before` is the disk at that moment.
  */
  datatype Accident = Overtaken(p: string, before: Disk, copied: Content) | Orphaned(p: string, before: Disk)

  predicate Happened(a: Accident) {
    match a
    case Overtaken(p, before, copied) => Differs(before, p, copied)
    case Orphaned(p, before) => IsLink(before, p)
  }

  ghost function PathsOf(accidents: seq<Accident>): set<string> {
    set a | a in accidents :: a.p
  }

  ghost predicate Seen(history: seq<Snapshot>, d: Disk) {
    exists i :: 0 <= i < |history| && history[i].disk == d
  }

  /** Every accident is one of a disk gone through. */
  ghost predicate AllSeen(history: seq<Snapshot>, accidents: seq<Accident>) {
    forall a :: a in accidents ==> Seen(history, a.before)
  }

  lemma SeenStays(history: seq<Snapshot>, now: Snapshot, accidents: seq<Accident>)
    requires AllSeen(history, accidents)
    ensures AllSeen(history + [now], accidents)
  {
    forall a | a in accidents ensures Seen(history + [now], a.before) {
      var i :| 0 <= i < |history| && history[i].disk == a.before;
      assert (history + [now])[i].disk == a.before;
    }
  }

  lemma OneMoreAccident(accidents: seq<Accident>, a: Accident)
    ensures PathsOf(accidents + [a]) == PathsOf(accidents) + {a.p}
  {
    assert forall x :: x in accidents + [a] <==> x in accidents || x == a;
  }

  class Storage {
    var disk: Disk
    var turns: nat
    const world: nat -> Turn
    const careful: bool              // users keep to the guards
    const paired: bool               // the scratch=cold pairs are configured
    ghost var truth: Truth
    ghost var lost: set<string>
    ghost var accidents: seq<Accident>
    ghost var history: seq<Snapshot>

    constructor (disk: Disk, world: nat -> Turn, careful: bool, paired: bool, truth: Truth)
      requires Inv(disk, truth) && Stamped(disk)
      ensures Valid() && this.disk == disk && this.truth == truth && history == [Snapshot(disk, truth, {})]
      ensures this.careful == careful && this.paired == paired && accidents == []
    {
      this.disk, this.turns, this.world, this.careful, this.paired := disk, 0, world, careful, paired;
      this.truth, this.lost, this.accidents, this.history := truth, {}, [], [Snapshot(disk, truth, {})];
    }

    ghost predicate Valid()
      reads this
    {
      && InvBut(disk, truth, lost) && Stamped(disk)
      && lost <= PathsOf(accidents)
      && (forall a :: a in accidents ==> Happened(a) && (careful ==> a.Orphaned?) && (paired ==> a.Overtaken?))
      && (forall i :: 0 <= i < |history| ==> InvBut(history[i].disk, history[i].truth, history[i].lost))
      && (forall i :: 0 <= i < |history| ==> history[i].lost <= PathsOf(accidents))
      && AllSeen(history, accidents) && history != [] && history[|history| - 1].disk == disk
    }

    ghost method Record()
      requires InvBut(disk, truth, lost) && Stamped(disk) && lost <= PathsOf(accidents) && AllSeen(history, accidents)
      requires forall a :: a in accidents ==> Happened(a) && (careful ==> a.Orphaned?) && (paired ==> a.Overtaken?)
      requires forall i :: 0 <= i < |history| ==> InvBut(history[i].disk, history[i].truth, history[i].lost)
      requires forall i :: 0 <= i < |history| ==> history[i].lost <= PathsOf(accidents)
      modifies `history
      ensures Valid() && history == old(history) + [Snapshot(disk, truth, lost)]
    {
      SeenStays(history, Snapshot(disk, truth, lost), accidents);
      history := history + [Snapshot(disk, truth, lost)];
    }

    /** The users' edits before a step; careful users leave out those the guard forbids. */
    method Step(guard: Guard) returns (turn: Turn)
      requires Valid()
      modifies `disk, `turns, `truth, `lost, `history
      ensures Valid() && old(history) <= history
      ensures Later(old(disk), disk) && (careful ==> Guarded(old(disk), disk, guard))
      ensures turn == world(old(turns)) && turns == old(turns) + 1
      ensures turn.edits == [] ==> disk == old(disk) && truth == old(truth)
    {
      turn := world(turns);
      turns := turns + 1;
      for i := 0 to |turn.edits|
        invariant Valid() && old(history) <= history
        invariant Later(old(disk), disk) && (careful ==> Guarded(old(disk), disk, guard))
        invariant i == 0 ==> disk == old(disk) && truth == old(truth)
        invariant turns == old(turns) + 1
      {
        var e := turn.edits[i];
        if !careful || Allowed(disk, e, guard) {
          EditKeeps(disk, e);
          EditLosesNothing(disk, truth, lost, e);
          if careful {
            EditGuarded(disk, e, guard);
            GuardedTransitive(old(disk), disk, Edited(disk, e), guard);
          }
          EditStamped(disk, e);
          LaterTransitive(old(disk), disk, Edited(disk, e));
          truth, lost := Intended(disk, truth, e), StillLost(disk, lost, e);
          disk := Edited(disk, e);
          Record();
        }
      }
    }

    /** One of the tool's own changes that lose nothing. */
    method Apply(next: Disk)
      requires Valid() && InvBut(next, truth, lost) && Stamped(next)
      modifies `disk, `history
      ensures Valid() && old(history) <= history && disk == next
    {
      disk := next;
      Record();
    }

    /** One that loses what is described by `a`, if that is the case. */
    method ApplyRisky(next: Disk, ghost a: Accident)
      requires Valid() && a.before == disk && Stamped(next)
      requires InvBut(next, truth, if Happened(a) then lost + {a.p} else lost)
      requires Happened(a) ==> (careful ==> a.Orphaned?) && (paired ==> a.Overtaken?)
      modifies `disk, `lost, `accidents, `history
      ensures Valid() && old(history) <= history && disk == next
      ensures accidents == if Happened(a) then old(accidents) + [a] else old(accidents)
    {
      assert history[|history| - 1].disk == a.before;
      if Happened(a) {
        OneMoreAccident(accidents, a);
        accidents, lost := accidents + [a], lost + {a.p};
      }
      disk := next;
      Record();
    }

    /** Stream a file that was `st` when stat'ed; once it is another file, anything may come. */
    method CopyLocal(p: string, st: FileData) returns (r: Outcome, buf: Content, part: Content)
      requires Valid() && Known(disk, p, st)
      modifies `disk, `turns, `truth, `lost, `accidents, `history
      ensures Valid() && old(history) <= history && old(accidents) <= accidents
      ensures Later(old(disk), disk) && Known(disk, p, st)
      ensures turns >= old(turns)
      ensures r == Moved && Matches(disk, p, st.ctime) && |buf| == |st.content| ==> buf == st.content
      ensures Calm(world, old(turns)) && Matches(old(disk), p, st.ctime) ==>
        r == Moved && part == buf == st.content && disk == old(disk) && truth == old(truth)
    {
      buf, part := [], [];
      while true
        invariant Valid() && old(history) <= history && old(accidents) <= accidents
        invariant Later(old(disk), disk) && Known(disk, p, st)
        invariant |buf| <= |st.content| && (Matches(disk, p, st.ctime) ==> buf == st.content[..|buf|])
        invariant turns >= old(turns) && (Calm(world, old(turns)) ==> disk == old(disk) && truth == old(truth))
        decreases |st.content| - |buf|
      {
        ghost var before := disk;
        var turn := Step(Anything);
        LaterTransitive(old(disk), before, disk);
        if turn.crash {
          return Crashed, buf, part;
        }
        if turn.fails {
          return Kept, buf, part;
        }
        if !Matches(disk, p, st.ctime) {
          return Moved, buf + turn.data, turn.data;
        }
        var to := if |buf| + CHUNK <= |st.content| then |buf| + CHUNK else |st.content|;
        if to == |buf| {
          return Moved, buf, if turn.damaged then turn.data else buf;
        }
        buf := buf + disk.scratch[User(p)].data.content[|buf|..to];
      }
    }

    /** The same for the cold copy, while its link is being restored. */
    method CopyCold(t: string, tst: FileData, guard: Guard) returns (r: Outcome, buf: Content, part: Content)
      requires Valid() && ColdKnown(disk, t, tst)
      modifies `disk, `turns, `truth, `lost, `accidents, `history
      ensures Valid() && old(history) <= history && old(accidents) <= accidents
      ensures Later(old(disk), disk) && (careful ==> Guarded(old(disk), disk, guard))
      ensures ColdKnown(disk, t, tst) && turns >= old(turns)
      ensures r == Moved && ColdMatches(disk, t, tst.ctime) && |buf| == |tst.content| ==> buf == tst.content
      ensures Calm(world, old(turns)) && ColdMatches(old(disk), t, tst.ctime) ==>
        r == Moved && part == buf == tst.content && disk == old(disk) && truth == old(truth)
    {
      buf, part := [], [];
      while true
        invariant Valid() && old(history) <= history && old(accidents) <= accidents
        invariant Later(old(disk), disk) && (careful ==> Guarded(old(disk), disk, guard))
        invariant ColdKnown(disk, t, tst)
        invariant |buf| <= |tst.content| && (ColdMatches(disk, t, tst.ctime) ==> buf == tst.content[..|buf|])
        invariant turns >= old(turns) && (Calm(world, old(turns)) ==> disk == old(disk) && truth == old(truth))
        decreases |tst.content| - |buf|
      {
        ghost var before := disk;
        var turn := Step(guard);
        LaterTransitive(old(disk), before, disk);
        if careful {
          GuardedTransitive(old(disk), before, disk, guard);
        }
        if turn.crash {
          return Crashed, buf, part;
        }
        if turn.fails {
          return Kept, buf, part;
        }
        if !ColdMatches(disk, t, tst.ctime) {
          return Moved, buf + turn.data, turn.data;
        }
        var to := if |buf| + CHUNK <= |tst.content| then |buf| + CHUNK else |tst.content|;
        if to == |buf| {
          return Moved, buf, if turn.damaged then turn.data else buf;
        }
        buf := buf + disk.cold[t].content[|buf|..to];
      }
    }

    /** Put the link in place of a file whose verified copy is in cold. */
    method Swap(p: string) returns (r: Outcome)
      requires Valid() && ReadyToSwap(disk, p)
      modifies `disk, `turns, `truth, `lost, `accidents, `history
      ensures Valid() && old(history) <= history && old(accidents) <= accidents
      ensures r == Moved ==> IsLink(disk, p)
      ensures Calm(world, old(turns)) ==>
        r == Moved && truth == old(truth) && disk == Swapped(Planted(old(disk), p), old(disk).clock, p)
    {
      // Careful users leave p alone from here to the rename.
      var turn := Step(NothingAt(p));
      if turn.crash {
        return Crashed;
      }
      var n := disk.clock;
      if !turn.fails || turn.effect {
        PlantKeeps(disk, truth, lost, p, n);
        Apply(Planted(disk, p));
      }
      if turn.fails {
        r := CleanUp(n);
      } else {
        r := Rename(p, n);
      }
    }

    method Rename(p: string, n: nat) returns (r: Outcome)
      requires Valid() && p in disk.cold && (careful ==> ReadyToSwap(disk, p))
      modifies `disk, `turns, `truth, `lost, `accidents, `history
      ensures Valid() && old(history) <= history && old(accidents) <= accidents
      ensures r == Moved ==> IsLink(disk, p)
      ensures Calm(world, old(turns)) ==> r == Moved && truth == old(truth) && disk == Swapped(old(disk), n, p)
    {
      var turn := Step(NothingAt(p));
      if turn.crash {
        return Crashed;
      }
      if !turn.fails || turn.effect {
        SwapKeeps(disk, truth, lost, n, p);
        ApplyRisky(Swapped(disk, n, p), Overtaken(p, disk, disk.cold[p].content));
      }
      if !turn.fails {
        return Moved;
      }
      r := CleanUp(n);
    }

    /** Remove the temporary link, if that works. */
    method CleanUp(n: nat) returns (r: Outcome)
      requires Valid()
      modifies `disk, `turns, `truth, `lost, `accidents, `history
      ensures Valid() && old(history) <= history && old(accidents) <= accidents && r != Moved
    {
      var turn := Step(Anything);
      if turn.crash {
        return Crashed;
      }
      if !turn.fails {
        PlantKeeps(disk, truth, lost, "", n);
        Apply(Cleared(disk, n));
      }
      return Kept;
    }

    method DropCold(t: string) returns (crashed: bool)
      requires Valid() && (paired ==> !IsLink(disk, t))
      modifies `disk, `turns, `truth, `lost, `accidents, `history
      ensures Valid() && old(history) <= history && old(accidents) <= accidents
      ensures Calm(world, old(turns)) ==> !crashed && truth == old(truth) && disk == Dropped(old(disk), t)
    {
      var turn := Step(Anything);
      if turn.crash {
        return true;
      }
      if !turn.fails || turn.effect {
        DropKeeps(disk, truth, lost, t);
        ApplyRisky(Dropped(disk, t), Orphaned(t, disk));
      }
      return false;
    }

    /** `archive_one` */
    method ArchiveOne(p: string, dryRun: bool) returns (r: Outcome)
      requires Valid()
      modifies `disk, `turns, `truth, `lost, `accidents, `history
      ensures Valid() && old(history) <= history && old(accidents) <= accidents
      ensures r == Moved && !dryRun ==> IsLink(disk, p)
      ensures Calm(world, old(turns)) && dryRun ==> disk == old(disk)
      ensures Calm(world, old(turns)) && IsFile(old(disk), p) && !dryRun ==>
        r == Moved && truth == old(truth) && disk == Archived(old(disk), p)
    {
      var turn := Step(Anything);
      if turn.crash {
        return Crashed;
      }
      // os.stat follows a link.
      if turn.fails || User(p) !in disk.scratch || (IsLink(disk, p) && disk.scratch[User(p)].target !in disk.cold) {
        return Kept;
      }
      var st := if IsFile(disk, p) then disk.scratch[User(p)].data else disk.cold[disk.scratch[User(p)].target];
      if dryRun {
        return Moved;
      }
      // The temporary file is made; opening the source refuses a link.
      turn := Step(Anything);
      if turn.crash {
        return Crashed;
      }
      if turn.fails || !IsFile(disk, p) {
        return Kept;
      }
      r := ArchiveFile(p, st);
    }

    /** The copy and its verification. */
    method ArchiveFile(p: string, st: FileData) returns (r: Outcome)
      requires Valid() && IsFile(disk, p) && Known(disk, p, st)
      modifies `disk, `turns, `truth, `lost, `accidents, `history
      ensures Valid() && old(history) <= history && old(accidents) <= accidents
      ensures r == Moved ==> IsLink(disk, p)
      ensures Calm(world, old(turns)) && old(disk).scratch[User(p)].data == st ==>
        r == Moved && truth == old(truth) && disk == Archived(old(disk), p)
    {
      var buf, part;
      r, buf, part := CopyLocal(p, st);
      if r != Moved {
        return;
      }
      if |buf| != |st.content| || part != buf {
        return Kept;
      }
      // Owner, mode and times are set on the copy, and it is synced.
      var turn := Step(Anything);
      if turn.crash {
        return Crashed;
      }
      if turn.fails {
        return Kept;
      }
      r := Publish(p, st, part);
    }

    /** Publish the verified copy, check the source once more, and swap. */
    method Publish(p: string, st: FileData, data: Content) returns (r: Outcome)
      requires Valid() && !IsLink(disk, p) && Known(disk, p, st)
      requires Matches(disk, p, st.ctime) ==> data == st.content
      modifies `disk, `turns, `truth, `lost, `accidents, `history
      ensures Valid() && old(history) <= history && old(accidents) <= accidents
      ensures r == Moved ==> IsLink(disk, p)
      ensures data == st.content && IsFile(old(disk), p) && old(disk).scratch[User(p)].data == st ==>
        Calm(world, old(turns)) ==> r == Moved && truth == old(truth) && disk == Archived(old(disk), p)
    {
      var turn := Step(Anything);
      if turn.crash {
        return Crashed;
      }
      if !turn.fails || turn.effect {
        PublishKeeps(disk, truth, lost, p, data, st);
        KnownStill(disk, Published(disk, p, data, st), p, st);
        Apply(Published(disk, p, data, st));
      }
      if turn.fails {
        return Kept;
      }
      assert Known(disk, p, st);
      r := CheckAndSwap(p, st);
    }

    /** Did the source change since it was read? If not, swap. */
    method CheckAndSwap(p: string, st: FileData) returns (r: Outcome)
      requires Valid() && !IsLink(disk, p) && Known(disk, p, st)
      requires p in disk.cold && (Matches(disk, p, st.ctime) ==> disk.cold[p].content == st.content)
      modifies `disk, `turns, `truth, `lost, `accidents, `history
      ensures Valid() && old(history) <= history && old(accidents) <= accidents
      ensures r == Moved ==> IsLink(disk, p)
      ensures Calm(world, old(turns)) && IsFile(old(disk), p) && SameStamps(old(disk).scratch[User(p)].data, st) ==>
        r == Moved && truth == old(truth) && disk == Swapped(Planted(old(disk), p), old(disk).clock, p)
      ensures Calm(world, old(turns)) && !(IsFile(old(disk), p) && SameStamps(old(disk).scratch[User(p)].data, st)) ==>
        r == Kept && truth == old(truth) && disk == Dropped(old(disk), p)
    {
      var turn := Step(Anything);
      if turn.crash {
        return Crashed;
      }
      if turn.fails || !IsFile(disk, p) || !SameStamps(disk.scratch[User(p)].data, st) {
        var crashed := DropCold(p);
        return if crashed then Crashed else Kept;
      }
      assert Matches(disk, p, st.ctime);
      r := Swap(p);
    }

    /** `restore_one`. With the scratch=cold pairs configured only a canonical link is restored. */
    method RestoreOne(link: Place, keepCold: bool, asRoot: bool, runner: nat) returns (r: Outcome)
      requires Valid()
      modifies `disk, `turns, `truth, `lost, `accidents, `history
      ensures Valid() && old(history) <= history && old(accidents) <= accidents
      ensures paired && r == Moved ==> link.User?
      ensures Calm(world, old(turns)) && link.User? && RestorableAt(old(disk), link.rel) ==>
        r == Moved && truth == old(truth) && disk == Restored(old(disk), link.rel, keepCold, asRoot, runner)
      ensures Calm(world, old(turns)) && !paired && !keepCold && LinksIntoCold(old(disk), link) ==>
        r == Moved && truth == old(truth) && disk == RestoredUnpaired(old(disk), link, asRoot, runner)
    {
      var turn := Step(GuardOf(link));
      if turn.crash {
        return Crashed;
      }
      if link !in disk.scratch || !disk.scratch[link].Link? {
        return Kept;
      }
      var target := disk.scratch[link].target;
      // The link's one archive location is that of its own name; a temporary name has no file there.
      if paired && link != User(target) {
        return Kept;
      }
      r := RestoreFrom(link, target, keepCold, asRoot, runner);
    }

    method RestoreFrom(link: Place, p: string, keepCold: bool, asRoot: bool, runner: nat) returns (r: Outcome)
      requires Valid() && link in disk.scratch && disk.scratch[link] == Link(p) && (paired ==> link == User(p))
      modifies `disk, `turns, `truth, `lost, `accidents, `history
      ensures Valid() && old(history) <= history && old(accidents) <= accidents
      ensures Calm(world, old(turns)) && p in old(disk).cold ==>
        && r == Moved && truth == old(truth)
        && disk == PutBackOf(old(disk), link, p, old(disk).cold[p].content, old(disk).cold[p], keepCold, asRoot, runner)
    {
      assert link.User? ==> IsLink(disk, link.rel) && link.rel == p;
      var turn := Step(GuardOf(link));
      if turn.crash {
        return Crashed;
      }
      if turn.fails || p !in disk.cold {
        return Kept;
      }
      var tst := disk.cold[p];
      var buf, part;
      r, buf, part := CopyCold(p, tst, GuardOf(link));
      if r != Moved {
        return;
      }
      if |buf| != |tst.content| || part != buf {
        return Kept;
      }
      // Mode, times and, as root, the owner are set on the copy, and it is synced.
      turn := Step(GuardOf(link));
      if turn.crash {
        return Crashed;
      }
      if turn.fails {
        return Kept;
      }
      assert ColdMatches(disk, p, tst.ctime) ==> part == tst.content;
      r := PutBack(link, p, tst, part, keepCold, asRoot, runner);
    }

    /** The last look at the cold file, the rename, and the removal of the cold copy. */
    method PutBack(link: Place, p: string, tst: FileData, data: Content, keepCold: bool, asRoot: bool, runner: nat)
      returns (r: Outcome)
      requires Valid() && ColdKnown(disk, p, tst) && (ColdMatches(disk, p, tst.ctime) ==> data == tst.content)
      requires (link.User? ==> link.rel == p) && (paired ==> link.User?)
      requires careful && link.User? ==> !IsFile(disk, p)
      modifies `disk, `turns, `truth, `lost, `accidents, `history
      ensures Valid() && old(history) <= history && old(accidents) <= accidents
      ensures Calm(world, old(turns)) && p in old(disk).cold && old(disk).cold[p] == tst && data == tst.content ==>
        && r == Moved && truth == old(truth)
        && disk == PutBackOf(old(disk), link, p, data, tst, keepCold, asRoot, runner)
      ensures Calm(world, old(turns)) && !(p in old(disk).cold && SameStamps(old(disk).cold[p], tst)) ==>
        r == Kept && disk == old(disk) && truth == old(truth)
    {
      var turn := Step(GuardOf(link));
      if turn.crash {
        return Crashed;
      }
      if turn.fails || p !in disk.cold || !SameStamps(disk.cold[p], tst) {
        return Kept;
      }
      assert ColdMatches(disk, p, tst.ctime);
      r := PutInPlace(link, p, tst, data, keepCold, asRoot, runner);
    }

    /** The rename itself: what is at the link's name by then is gone. */
    method Return(link: Place, tst: FileData, data: Content, asRoot: bool, runner: nat)
      requires Valid()
      requires careful && link.User? ==> !Differs(disk, link.rel, data)
      modifies `disk, `lost, `accidents, `history
      ensures Valid() && old(history) <= history && old(accidents) <= accidents
      ensures disk == Returned(old(disk), link, data, tst, asRoot, runner)
    {
      ReturnKeeps(disk, truth, lost, link, data, tst, asRoot, runner);
      if link.User? {
        ApplyRisky(Returned(disk, link, data, tst, asRoot, runner), Overtaken(link.rel, disk, data));
      } else {
        Apply(Returned(disk, link, data, tst, asRoot, runner));
      }
    }

    method PutInPlace(link: Place, p: string, tst: FileData, data: Content, keepCold: bool, asRoot: bool, runner: nat)
      returns (r: Outcome)
      requires Valid() && p in disk.cold && disk.cold[p].content == data
      requires (link.User? ==> link.rel == p) && (paired ==> link.User?)
      requires careful && link.User? ==> !IsFile(disk, p)
      modifies `disk, `turns, `truth, `lost, `accidents, `history
      ensures Valid() && old(history) <= history && old(accidents) <= accidents
      ensures Calm(world, old(turns)) && old(disk).cold[p] == tst ==>
        && r == Moved && truth == old(truth)
        && disk == PutBackOf(old(disk), link, p, data, tst, keepCold, asRoot, runner)
    {
      // Careful users leave the link's name alone from the check to the rename.
      var turn := Step(if link.User? then NothingAt(p) else Anything);
      if turn.crash {
        return Crashed;
      }
      if !turn.fails || turn.effect {
        Return(link, tst, data, asRoot, runner);
      }
      if turn.fails {
        return Kept;
      }
      if keepCold {
        return Moved;
      }
      r := Reclaim(p, tst);
    }

    /** Remove the cold copy of a restored file, if it is still what was restored. */
    method Reclaim(p: string, tst: FileData) returns (r: Outcome)
      requires Valid() && (paired ==> !IsLink(disk, p))
      modifies `disk, `turns, `truth, `lost, `accidents, `history
      ensures Valid() && old(history) <= history && old(accidents) <= accidents && (r == Moved || r == Crashed)
      ensures Calm(world, old(turns)) && p in old(disk).cold && SameStamps(old(disk).cold[p], tst) ==>
        r == Moved && truth == old(truth) && disk == Dropped(old(disk), p)
      ensures Calm(world, old(turns)) && !(p in old(disk).cold && SameStamps(old(disk).cold[p], tst)) ==>
        r == Moved && truth == old(truth) && disk == old(disk)
    {
      var turn := Step(Anything);
      if turn.crash {
        return Crashed;
      }
      if !turn.fails && p in disk.cold && SameStamps(disk.cold[p], tst) {
        var crashed := DropCold(p);
        if crashed {
          return Crashed;
        }
      }
      return Moved;
    }
  }

  /** What careful users spare while a link is restored: they put no regular file in its place. */
  function GuardOf(link: Place): Guard {
    if link.User? then NoFileAt(link.rel) else Anything
  }

  datatype Job = Archive(p: string) | Restore(link: Place, keepCold: bool, asRoot: bool, runner: nat)

  /**
   Any sequence of archives and restores, each failing, crashing or interrupted by any edits anywhere: in
   every state gone through, a path reads as its user last wrote it unless an accident befell it, and
   every accident is a rename over something that was not what had been copied, or an archive removed
   from under a link without the pairs. With careful users and the pairs there is none, and nothing is lost.
  */
  method RunJobs(s: Storage, jobs: seq<Job>)
    requires s.Valid() && s.accidents == []
    modifies s`disk, s`turns, s`truth, s`lost, s`accidents, s`history
    ensures s.Valid() && old(s.history) <= s.history
    ensures forall i :: 0 <= i < |s.history| ==>
      NoLossBut(s.history[i].disk, s.history[i].truth, PathsOf(s.accidents))
    ensures forall a :: a in s.accidents ==> Happened(a) && Seen(s.history, a.before)
    ensures s.paired ==> forall a :: a in s.accidents ==> a.Overtaken?
    ensures s.careful && s.paired ==>
      s.accidents == [] && forall i :: 0 <= i < |s.history| ==> NoLoss(s.history[i].disk, s.history[i].truth)
  {
    for i := 0 to |jobs|
      invariant s.Valid() && old(s.history) <= s.history
    {
      match jobs[i]
      case Archive(p) => var _ := s.ArchiveOne(p, false);
      case Restore(link, keepCold, asRoot, runner) => var _ := s.RestoreOne(link, keepCold, asRoot, runner);
    }
    SomeOrNone(s.accidents);
  }

  lemma SomeOrNone(accidents: seq<Accident>)
    ensures accidents == [] || exists a :: a in accidents
  {
    if accidents != [] {
      assert accidents[0] in accidents;
    }
  }

  /** What an undisturbed `archive_one` makes of the disk. */
  function Archived(d: Disk, p: string): Disk
    requires IsFile(d, p)
  {
    var st := d.scratch[User(p)].data;
    var published := Published(d, p, st.content, st);
    Swapped(Planted(published, p), published.clock, p)
  }

  predicate RestorableAt(d: Disk, p: string) {
    User(p) in d.scratch && d.scratch[User(p)] == Link(p) && p in d.cold
  }

  /** What an undisturbed `restore_one` makes of the disk. */
  function Restored(d: Disk, p: string, keepCold: bool, asRoot: bool, runner: nat): Disk
    requires RestorableAt(d, p)
  {
    PutBackOf(d, User(p), p, d.cold[p].content, d.cold[p], keepCold, asRoot, runner)
  }

  function PutBackOf(
    d: Disk, link: Place, p: string, data: Content, tst: FileData, keepCold: bool, asRoot: bool, runner: nat): Disk
  {
    var back := Returned(d, link, data, tst, asRoot, runner);
    if keepCold then back else Dropped(back, p)
  }

  predicate LinksIntoCold(d: Disk, link: Place) {
    link in d.scratch && d.scratch[link].Link? && d.scratch[link].target in d.cold
  }

  /** `restore_one` without scratch=cold pairs, undisturbed: any link into cold is restored. */
  function RestoredUnpaired(d: Disk, link: Place, asRoot: bool, runner: nat): Disk
    requires LinksIntoCold(d, link)
  {
    var t := d.scratch[link].target;
    PutBackOf(d, link, t, d.cold[t].content, d.cold[t], false, asRoot, runner)
  }

  ghost predicate CalmTurn(t: Turn) {
    t.edits == [] && !t.crash && !t.fails && !t.damaged
  }

  /** From turn `n` on nothing goes wrong and nobody edits. */
  ghost predicate Calm(world: nat -> Turn, n: nat) {
    forall i: nat :: i >= n ==> CalmTurn(world(i))
  }
}
