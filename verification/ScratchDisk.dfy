/**
 The two trees of the scratch tier: scratch, where users work, and cold, where
 nix/modules/scratch/scratch-overflow.py keeps demoted files behind symlinks. A path and its
 archive location share the relative name, so a link at p is canonical when it points to p.
*/
module ScratchDisk {
  import opened Wrappers

  type Content = seq<int>

  // ctime is set by the kernel at every change and never given out twice.
  datatype FileData = FileData(content: Content, ino: nat, mode: nat, owner: nat, atime: int, mtime: int, ctime: nat)

  // A user's path, or a temporary name of the tool in the same directory.
  datatype Place = User(rel: string) | Temp(n: nat)

  datatype Node = File(data: FileData) | Link(target: string)

  datatype Disk = Disk(scratch: map<Place, Node>, cold: map<string, FileData>, clock: nat)

  /** What a user has put at each path, most recently. */
  type Truth = map<string, Content>

  /** Reading a path, following its link. */
  function Read(d: Disk, p: string): Option<Content> {
    if User(p) !in d.scratch then None
    else match d.scratch[User(p)]
      case File(f) => Some(f.content)
      case Link(t) => if t in d.cold then Some(d.cold[t].content) else None
  }

  /** Every user path, but for those in `lost`, reads as what its user last wrote. */
  ghost predicate NoLossBut(d: Disk, truth: Truth, lost: set<string>) {
    forall p :: p in truth && p !in lost ==> Read(d, p) == Some(truth[p])
  }

  ghost predicate NoLoss(d: Disk, truth: Truth) {
    NoLossBut(d, truth, {})
  }

  predicate IsLink(d: Disk, p: string) {
    User(p) in d.scratch && d.scratch[User(p)].Link?
  }

  predicate IsFile(d: Disk, p: string) {
    User(p) in d.scratch && d.scratch[User(p)].File?
  }

  ghost predicate Canonical(d: Disk) {
    forall p :: IsLink(d, p) ==> d.scratch[User(p)].target == p
  }

  ghost predicate InvBut(d: Disk, truth: Truth, lost: set<string>) {
    NoLossBut(d, truth, lost) && Canonical(d)
  }

  ghost predicate Inv(d: Disk, truth: Truth) {
    InvBut(d, truth, {})
  }

  // ----- what users do -----

  datatype Edit =
    | Write(p: string, content: Content)                      // in place, through a link if there is one
    | Replace(p: string, content: Content, mode: nat, owner: nat, mtime: int)   // a new file renamed over p
    | Delete(p: string)
    | SetMeta(p: string, mode: nat, owner: nat, mtime: int)   // chmod, chown, utime: follow links
    | Access(p: string, atime: int)                           // a read: atime only, no new ctime

  function NewFile(d: Disk, content: Content, mode: nat, owner: nat, mtime: int): FileData {
    FileData(content, d.clock, mode, owner, mtime, mtime, d.clock)
  }

  /** Put `f` where p leads: the file itself, or the cold file behind its link. */
  function Through(d: Disk, p: string, f: FileData -> FileData): Disk {
    if User(p) !in d.scratch then d
    else match d.scratch[User(p)]
      case File(data) => d.(scratch := d.scratch[User(p) := File(f(data))], clock := d.clock + 1)
      case Link(t) =>
        if t in d.cold then d.(cold := d.cold[t := f(d.cold[t])], clock := d.clock + 1) else d
  }

  function Edited(d: Disk, e: Edit): Disk {
    match e
    case Write(p, content) =>
      if User(p) in d.scratch
      then Through(d, p, (f: FileData) => f.(content := content, mtime := d.clock, ctime := d.clock))
      else d.(scratch := d.scratch[User(p) := File(NewFile(d, content, 0, 0, d.clock))], clock := d.clock + 1)
    case Replace(p, content, mode, owner, mtime) =>
      d.(scratch := d.scratch[User(p) := File(NewFile(d, content, mode, owner, mtime))], clock := d.clock + 1)
    case Delete(p) => d.(scratch := d.scratch - {User(p)}, clock := d.clock + 1)
    case SetMeta(p, mode, owner, mtime) =>
      Through(d, p, (f: FileData) => f.(mode := mode, owner := owner, mtime := mtime, ctime := d.clock))
    case Access(p, atime) => Through(d, p, (f: FileData) => f.(atime := atime))
  }

  function Intended(d: Disk, truth: Truth, e: Edit): Truth {
    match e
    case Write(p, content) => if User(p) in d.scratch && Read(d, p).None? then truth else truth[p := content]
    case Replace(p, content, _, _, _) => truth[p := content]
    case Delete(p) => truth - {p}
    case _ => truth
  }

  /** A path written anew, or deleted, is lost no longer. */
  function StillLost(d: Disk, lost: set<string>, e: Edit): set<string> {
    match e
    case Write(p, _) => if User(p) in d.scratch && Read(d, p).None? then lost else lost - {p}
    case Replace(p, _, _, _, _) => lost - {p}
    case Delete(p) => lost - {p}
    case _ => lost
  }

  /** What careful users leave alone around a step, for the path being worked on. */
  datatype Guard = Anything | NoFileAt(q: string) | NothingAt(q: string)

  /** May a user do `e` under the guard? `NoFileAt` forbids putting a regular file at q. */
  predicate Allowed(d: Disk, e: Edit, g: Guard) {
    match g
    case Anything => true
    case NothingAt(q) => e.p != q
    case NoFileAt(q) => e.p == q ==> !e.Replace? && (e.Write? ==> User(q) in d.scratch)
  }

  // ----- what edits cannot do behind the tool's back -----

  /** Equal but for the access time. */
  predicate SameFile(f: FileData, g: FileData) {
    f.(atime := 0) == g.(atime := 0)
  }

  /** The file at p, if its ctime is `c`. */
  predicate Matches(d: Disk, p: string, c: nat) {
    IsFile(d, p) && d.scratch[User(p)].data.ctime == c
  }

  predicate ColdMatches(d: Disk, t: string, c: nat) {
    t in d.cold && d.cold[t].ctime == c
  }

  /** A file at a user path with an old ctime is the old file. */
  ghost predicate FilesKept(a: Disk, b: Disk) {
    forall p, c: nat :: c < a.clock && Matches(b, p, c) ==>
      Matches(a, p, c) && SameFile(a.scratch[User(p)].data, b.scratch[User(p)].data)
  }

  ghost predicate ColdKept(a: Disk, b: Disk) {
    forall t, c: nat :: c < a.clock && ColdMatches(b, t, c) ==>
      ColdMatches(a, t, c) && SameFile(a.cold[t], b.cold[t])
  }

  ghost predicate NoNewLinks(a: Disk, b: Disk) {
    forall p :: IsLink(b, p) ==> IsLink(a, p) && b.scratch[User(p)] == a.scratch[User(p)]
  }

  ghost predicate UnlinkedRests(a: Disk, b: Disk) {
    b.cold.Keys == a.cold.Keys && forall t :: t in a.cold && !IsLink(a, t) ==> b.cold[t] == a.cold[t]
  }

  /** What the world may do between two steps of the tool. */
  ghost predicate Later(a: Disk, b: Disk) {
    a.clock <= b.clock && FilesKept(a, b) && ColdKept(a, b) && NoNewLinks(a, b) && UnlinkedRests(a, b)
  }

  ghost predicate Guarded(a: Disk, b: Disk, g: Guard) {
    match g
    case Anything => true
    case NoFileAt(q) => IsLink(a, q) || User(q) !in a.scratch ==> !IsFile(b, q)
    case NothingAt(q) =>
      && (User(q) in b.scratch <==> User(q) in a.scratch)
      && (User(q) in a.scratch ==> b.scratch[User(q)] == a.scratch[User(q)])
      && (q in a.cold ==> q in b.cold && b.cold[q] == a.cold[q])
  }

  lemma ThroughKeeps(d: Disk, p: string, f: FileData -> FileData)
    requires Canonical(d)
    requires forall x :: f(x).ctime == d.clock || SameFile(f(x), x)
    ensures Canonical(Through(d, p, f)) && Later(d, Through(d, p, f))
  {
  }

  lemma EditKeeps(d: Disk, e: Edit)
    requires Canonical(d)
    ensures Canonical(Edited(d, e)) && Later(d, Edited(d, e))
  {
    match e
    case Write(p, content) =>
      ThroughKeeps(d, p, (f: FileData) => f.(content := content, mtime := d.clock, ctime := d.clock));
    case SetMeta(p, mode, owner, mtime) =>
      ThroughKeeps(d, p, (f: FileData) => f.(mode := mode, owner := owner, mtime := mtime, ctime := d.clock));
    case Access(p, atime) =>
      ThroughKeeps(d, p, (f: FileData) => f.(atime := atime));
    case _ =>
  }

  lemma EditLosesNothing(d: Disk, truth: Truth, lost: set<string>, e: Edit)
    requires InvBut(d, truth, lost)
    ensures NoLossBut(Edited(d, e), Intended(d, truth, e), StillLost(d, lost, e))
  {
    var d', truth', lost' := Edited(d, e), Intended(d, truth, e), StillLost(d, lost, e);
    forall p | p in truth' && p !in lost' ensures Read(d', p) == Some(truth'[p]) {
      if p != e.p {
        assert p in truth && truth'[p] == truth[p];
        ElsewhereReadsTheSame(d, e, p);
      }
    }
  }

  /** An edit of one path shows at no other, links being canonical. */
  lemma ElsewhereReadsTheSame(d: Disk, e: Edit, p: string)
    requires Canonical(d) && p != e.p
    ensures Read(Edited(d, e), p) == Read(d, p)
  {
    assert IsLink(d, p) ==> d.scratch[User(p)].target == p;
    assert IsLink(d, e.p) ==> d.scratch[User(e.p)].target == e.p;
  }

  lemma EditGuarded(d: Disk, e: Edit, g: Guard)
    requires Canonical(d) && Allowed(d, e, g)
    ensures Guarded(d, Edited(d, e), g)
  {
  }

  lemma LaterTransitive(a: Disk, b: Disk, c: Disk)
    requires Later(a, b) && Later(b, c)
    ensures Later(a, c)
  {
  }

  lemma GuardedTransitive(a: Disk, b: Disk, c: Disk, g: Guard)
    requires Later(a, b) && Later(b, c) && Guarded(a, b, g) && Guarded(b, c, g)
    ensures Guarded(a, c, g)
  {
  }
}
