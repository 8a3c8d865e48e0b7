/**
 `content_hash` of nix/modules/services/compose-stack/compose-reload.py: the bytes fed to the hash
 for a directory tree, and that they give the tree's leaves away. A character stands for a byte.
*/
module Fingerprint {
  import opened Wrappers
  import opened StringOrder

  /** toDir: whether a link leads to a directory, which decides where os.walk lists it. Other: a socket, say. */
  datatype Node = File(content: string) | Link(target: string, toDir: bool) | Other | Dir(children: map<string, Node>)

  /** A leaf as the hash sees it: its place, and "F" + content, "L" + target or nothing. */
  datatype Leaf = Leaf(path: seq<string>, body: string)

  const NUL := '\0'

  function Body(n: Node): string {
    match n
    case File(content) => "F" + content
    case Link(target, _) => "L" + target
    case Other => ""
    case Dir(_) => ""
  }

  function FileNames(children: map<string, Node>): set<string> {
    set name | name in children && !children[name].Dir? && !(children[name].Link? && children[name].toDir)
  }

  function DirLinkNames(children: map<string, Node>): set<string> {
    set name | name in children && children[name].Link? && children[name].toDir
  }

  function DirNames(children: map<string, Node>): set<string> {
    set name | name in children && children[name].Dir?
  }

  /** What the inner loop hashes in one directory. */
  function Listed(children: map<string, Node>): seq<string> {
    Sorted(FileNames(children)) + Sorted(DirLinkNames(children))
  }

  function Child(children: map<string, Node>, name: string): Node {
    if name in children then children[name] else Other
  }

  function LeavesNamed(above: seq<string>, children: map<string, Node>, names: seq<string>): seq<Leaf> {
    seq(|names|, i requires 0 <= i < |names| => Leaf(above + [names[i]], Body(Child(children, names[i]))))
  }

  function LeavesHere(above: seq<string>, node: Node): seq<Leaf>
    requires node.Dir?
  {
    LeavesNamed(above, node.children, Listed(node.children))
  }

  /** The leaves in the order os.walk comes to them. */
  function Leaves(above: seq<string>, node: Node): seq<Leaf>
    requires node.Dir?
    decreases node, 1, 0
  {
    LeavesHere(above, node) + LeavesBelow(above, node, Sorted(DirNames(node.children)))
  }

  function LeavesBelow(above: seq<string>, node: Node, names: seq<string>): seq<Leaf>
    requires node.Dir? && forall i :: 0 <= i < |names| ==> names[i] in DirNames(node.children)
    decreases node, 0, |names|
  {
    if names == [] then []
    else
      assert names[|names| - 1] in DirNames(node.children);
      LeavesBelow(above, node, names[..|names| - 1])
      + Leaves(above + [names[|names| - 1]], node.children[names[|names| - 1]])
  }

  /** `os.path.relpath` of a leaf. */
  function Join(path: seq<string>): string {
    if path == [] then "" else if |path| == 1 then path[0] else path[0] + "/" + Join(path[1..])
  }

  function Fed(leaf: Leaf): string {
    Join(leaf.path) + [NUL] + leaf.body + [NUL]
  }

  function Stream(leaves: seq<Leaf>): string {
    if leaves == [] then "" else Stream(leaves[..|leaves| - 1]) + Fed(leaves[|leaves| - 1])
  }

  /** The bytes of `content_hash(path)` for a file or a directory. */
  function HashInput(node: Node): string {
    match node
    case File(content) => content
    case Dir(_) => Stream(Leaves([], node))
    case _ => ""
  }

  class Sha256 {
    var fed: string

    constructor ()
      ensures fed == ""
    {
      fed := "";
    }

    method Update(bytes: string)
      modifies this
      ensures fed == old(fed) + bytes
    {
      fed := fed + bytes;
    }

    /** One turn of the inner loop: the relative path, then what the leaf is and holds. */
    method HashLeaf(path: seq<string>, node: Node)
      modifies this
      ensures fed == old(fed) + Fed(Leaf(path, Body(node)))
    {
      Update(Join(path) + [NUL]);
      match node {
        case Link(target, _) => Update("L" + target);
        case File(content) => Update("F" + content);
        case _ =>
      }
      Update([NUL]);
      assert fed == old(fed) + (Join(path) + [NUL]) + Body(node) + [NUL];
    }

    method HashLeaves(above: seq<string>, children: map<string, Node>, names: seq<string>)
      modifies this
      ensures fed == old(fed) + Stream(LeavesNamed(above, children, names))
    {
      for i := 0 to |names|
        invariant fed == old(fed) + Stream(LeavesNamed(above, children, names[..i]))
      {
        HashLeaf(above + [names[i]], Child(children, names[i]));
        NamedStep(above, children, names, i);
        Associative(old(fed), Stream(LeavesNamed(above, children, names[..i])),
                    Fed(Leaf(above + [names[i]], Body(Child(children, names[i])))));
      }
      assert names[..|names|] == names;
    }

    method WalkBelow(above: seq<string>, node: Node, dirs: seq<string>)
      requires node.Dir? && forall i :: 0 <= i < |dirs| ==> dirs[i] in DirNames(node.children)
      modifies this
      ensures fed == old(fed) + Stream(LeavesBelow(above, node, dirs))
      decreases node, 0
    {
      for i := 0 to |dirs|
        invariant fed == old(fed) + Stream(LeavesBelow(above, node, dirs[..i]))
      {
        assert dirs[i] in DirNames(node.children);
        Walk(above + [dirs[i]], node.children[dirs[i]]);
        BelowStep(above, node, dirs, i);
        Associative(old(fed), Stream(LeavesBelow(above, node, dirs[..i])),
          Stream(Leaves(above + [dirs[i]], node.children[dirs[i]])));
      }
      assert dirs[..|dirs|] == dirs;
    }

    /** os.walk from the top, directories in sorted order, links not followed. */
    method Walk(above: seq<string>, node: Node)
      requires node.Dir?
      modifies this
      ensures fed == old(fed) + Stream(Leaves(above, node))
      decreases node, 1
    {
      HashLeaves(above, node.children, Listed(node.children));
      var dirs := Sorted(DirNames(node.children));
      assert forall i :: 0 <= i < |dirs| ==> dirs[i] in dirs;
      WalkBelow(above, node, dirs);
      StreamConcat(LeavesHere(above, node), LeavesBelow(above, node, dirs));
      Associative(old(fed), Stream(LeavesHere(above, node)), Stream(LeavesBelow(above, node, dirs)));
    }

    /** `content_hash` on what is a file or a directory. */
    method ContentHash(node: Node)
      requires fed == ""
      modifies this
      ensures fed == HashInput(node)
    {
      if node.File? {
        Update(node.content);
      } else if node.Dir? {
        Walk([], node);
      }
    }
  }

  lemma {:induction false} StreamConcat(a: seq<Leaf>, b: seq<Leaf>)
    ensures Stream(a + b) == Stream(a) + Stream(b)
  {
    if b == [] {
      assert a + b == a;
    } else {
      var init, last := b[..|b| - 1], b[|b| - 1];
      StreamConcat(a, init);
      assert a + b == (a + init) + [last] && b == init + [last];
      StreamLast(a + init, last);
      StreamLast(init, last);
      Associative(Stream(a), Stream(init), Fed(last));
    }
  }

  lemma StreamLast(init: seq<Leaf>, last: Leaf)
    ensures Stream(init + [last]) == Stream(init) + Fed(last)
  {
    assert (init + [last])[..|init|] == init;
  }

  lemma Associative(a: string, b: string, c: string)
    ensures a + b + c == a + (b + c)
  {
  }

  lemma NamedStep(above: seq<string>, children: map<string, Node>, names: seq<string>, i: nat)
    requires i < |names|
    ensures Stream(LeavesNamed(above, children, names[..i + 1]))
         == Stream(LeavesNamed(above, children, names[..i]))
           + Fed(Leaf(above + [names[i]], Body(Child(children, names[i]))))
  {
    assert LeavesNamed(above, children, names[..i + 1])[..i] == LeavesNamed(above, children, names[..i]);
  }

  lemma BelowStep(above: seq<string>, node: Node, dirs: seq<string>, i: nat)
    requires node.Dir? && i < |dirs| && forall j :: 0 <= j < |dirs| ==> dirs[j] in DirNames(node.children)
    ensures Stream(LeavesBelow(above, node, dirs[..i + 1]))
         == Stream(LeavesBelow(above, node, dirs[..i])) + Stream(Leaves(above + [dirs[i]], node.children[dirs[i]]))
  {
    assert dirs[..i + 1][..i] == dirs[..i];
    StreamConcat(LeavesBelow(above, node, dirs[..i]), Leaves(above + [dirs[i]], node.children[dirs[i]]));
  }

  // ----- the stream read back -----

  function Cut(s: string, c: char): (k: nat)
    ensures k <= |s|
  {
    if s == "" || s[0] == c then 0 else Cut(s[1..], c) + 1
  }

  lemma {:induction false} CutAt(a: string, c: char, rest: string)
    requires c !in a
    ensures Cut(a + [c] + rest, c) == |a|
  {
    var s := a + [c] + rest;
    if a == "" {
      assert s[0] == c;
    } else {
      assert s[0] == a[0] && a[0] in a;
      assert s[1..] == a[1..] + [c] + rest;
      CutAt(a[1..], c, rest);
    }
  }

  lemma {:induction false} CutNowhere(a: string, c: char)
    requires c !in a
    ensures Cut(a, c) == |a|
  {
    if a != "" {
      CutNowhere(a[1..], c);
    }
  }

  /** Names of a path: one or more, none with a slash. */
  ghost predicate Names(path: seq<string>) {
    path != [] && forall name :: name in path ==> '/' !in name && NUL !in name
  }

  /** Relative paths are told apart. */
  lemma {:induction false} JoinInjective(a: seq<string>, b: seq<string>)
    requires Names(a) && Names(b) && Join(a) == Join(b)
    ensures a == b
  {
    HeadOfJoin(a);
    HeadOfJoin(b);
    if |a| > 1 {
      assert a[1..] == b[1..] by {
        assert Join(a)[|a[0]| + 1..] == Join(a[1..]) && Join(b)[|b[0]| + 1..] == Join(b[1..]);
        JoinInjective(a[1..], b[1..]);
      }
      assert a == [a[0]] + a[1..] && b == [b[0]] + b[1..];
    }
  }

  lemma HeadOfJoin(path: seq<string>)
    requires Names(path)
    ensures Cut(Join(path), '/') == |path[0]| && Join(path)[..|path[0]|] == path[0]
    ensures |path| == 1 <==> |Join(path)| == |path[0]|
  {
    assert path[0] in path;
    if |path| == 1 {
      CutNowhere(path[0], '/');
    } else {
      CutAt(path[0], '/', Join(path[1..]));
    }
  }

  lemma {:induction false} JoinHasNoNul(path: seq<string>)
    requires Names(path)
    ensures NUL !in Join(path)
  {
    assert path[0] in path;
    if |path| > 1 {
      JoinHasNoNul(path[1..]);
    }
  }

  ghost predicate NulFree(leaves: seq<Leaf>) {
    forall l :: l in leaves ==> Names(l.path) && NUL !in l.body
  }

  lemma {:induction false} StreamFront(leaves: seq<Leaf>)
    requires leaves != []
    ensures Stream(leaves) == Fed(leaves[0]) + Stream(leaves[1..])
  {
    StreamConcat([leaves[0]], leaves[1..]);
    assert leaves == [leaves[0]] + leaves[1..];
    assert Stream([leaves[0]]) == Fed(leaves[0]) by {
      assert [leaves[0]][..0] == [];
    }
  }

  lemma FedCuts(leaf: Leaf, rest: string)
    requires Names(leaf.path) && NUL !in leaf.body
    ensures var s, p, n := Fed(leaf) + rest, Join(leaf.path), |leaf.body|;
      && Cut(s, NUL) == |p| && s[..|p|] == p
      && Cut(s[|p| + 1..], NUL) == n && s[|p| + 1..][..n] == leaf.body && s[|p| + 1..][n + 1..] == rest
  {
    var s, p := Fed(leaf) + rest, Join(leaf.path);
    JoinHasNoNul(leaf.path);
    assert s == p + [NUL] + (leaf.body + [NUL] + rest);
    CutAt(p, NUL, leaf.body + [NUL] + rest);
    assert s[|p| + 1..] == leaf.body + [NUL] + rest;
    CutAt(leaf.body, NUL, rest);
  }

  lemma FirstLeaf(a: Leaf, afterA: string, b: Leaf, afterB: string)
    requires Names(a.path) && NUL !in a.body && Names(b.path) && NUL !in b.body
    requires Fed(a) + afterA == Fed(b) + afterB
    ensures a == b && afterA == afterB
  {
    FedCuts(a, afterA);
    FedCuts(b, afterB);
    JoinInjective(a.path, b.path);
  }

  /** Equal streams come from equal lists of leaves. */
  lemma {:induction false} StreamInjective(a: seq<Leaf>, b: seq<Leaf>)
    requires NulFree(a) && NulFree(b)
    ensures Stream(a) == Stream(b) <==> a == b
  {
    if Stream(a) == Stream(b) {
      if a == [] && b != [] {
        StreamFront(b);
      } else if a != [] && b == [] {
        StreamFront(a);
      } else if a != [] {
        StreamFront(a);
        StreamFront(b);
        assert a[0] in a && b[0] in b;
        FirstLeaf(a[0], Stream(a[1..]), b[0], Stream(b[1..]));
        StreamInjective(a[1..], b[1..]);
        assert a == [a[0]] + a[1..] && b == [b[0]] + b[1..];
      }
    }
  }

  // ----- with NUL bytes -----

  lemma SameLengthFed(a: Leaf, afterA: string, b: Leaf, afterB: string)
    requires a.path == b.path && |a.body| == |b.body| && Fed(a) + afterA == Fed(b) + afterB
    ensures a == b && afterA == afterB
  {
    var n, k := |Join(a.path)| + 1, |a.body|;
    var s, t := Fed(a) + afterA, Fed(b) + afterB;
    assert s[n..n + k] == a.body && t[n..n + k] == b.body;
    assert s[n + k + 1..] == afterA && t[n + k + 1..] == afterB;
  }

  ghost predicate SameSizes(a: seq<Leaf>, b: seq<Leaf>) {
    |a| == |b| && forall i :: 0 <= i < |a| ==> a[i].path == b[i].path && |a[i].body| == |b[i].body|
  }

  /** Whatever bytes they hold, lists of the same paths and sizes are told apart. */
  lemma {:induction false} SameSizesToldApart(a: seq<Leaf>, b: seq<Leaf>)
    requires SameSizes(a, b)
    ensures Stream(a) == Stream(b) <==> a == b
  {
    if Stream(a) == Stream(b) && a != [] {
      StreamFront(a);
      StreamFront(b);
      SameLengthFed(a[0], Stream(a[1..]), b[0], Stream(b[1..]));
      SameSizesToldApart(a[1..], b[1..]);
      assert a == [a[0]] + a[1..] && b == [b[0]] + b[1..];
    }
  }

  /** And so are two that differ in one leaf's kind or content, whatever its size. */
  lemma OneEditToldApart(before: seq<Leaf>, x: Leaf, y: Leaf, after: seq<Leaf>)
    requires x.path == y.path
    ensures Stream(before + [x] + after) == Stream(before + [y] + after) <==> x == y
  {
    StreamConcat(before + [x], after);
    StreamConcat(before + [y], after);
    StreamLast(before, x);
    StreamLast(before, y);
    if Stream(before + [x] + after) == Stream(before + [y] + after) {
      assert |Fed(x)| == |Fed(y)|;
      var s, n := Stream(before + [x] + after), |Stream(before)|;
      assert s[n..n + |Fed(x)|] == Fed(x) && s[n..n + |Fed(y)|] == Fed(y);
      SameLengthFed(x, [], y, []);
    }
  }

  // ----- the leaves are the tree's -----

  function LeafAt(node: Node, path: seq<string>): Option<string> {
    if path == [] then (if node.Dir? then None else Some(Body(node)))
    else if node.Dir? && path[0] in node.children then LeafAt(node.children[path[0]], path[1..])
    else None
  }

  lemma {:induction false} LeafIsListed(above: seq<string>, node: Node, path: seq<string>)
    requires node.Dir? && path != [] && LeafAt(node, path).Some?
    ensures Leaf(above + path, LeafAt(node, path).value) in Leaves(above, node)
    decreases path
  {
    var child := node.children[path[0]];
    if child.Dir? {
      LeafIsListed(above + [path[0]], child, path[1..]);
      assert above + path == above + [path[0]] + path[1..];
      DirIsVisited(above, node, path[0], Leaf(above + path, LeafAt(node, path).value));
    } else {
      assert path == [path[0]];
      LeafIsHere(above, node, path[0]);
    }
  }

  lemma LeafIsHere(above: seq<string>, node: Node, name: string)
    requires node.Dir? && name in node.children && !node.children[name].Dir?
    ensures Leaf(above + [name], Body(node.children[name])) in LeavesHere(above, node)
  {
    var names := Listed(node.children);
    assert name in names;
    var i :| 0 <= i < |names| && names[i] == name;
    assert LeavesHere(above, node)[i] == Leaf(above + [name], Body(node.children[name]));
  }

  lemma DirIsVisited(above: seq<string>, node: Node, name: string, leaf: Leaf)
    requires node.Dir? && name in node.children && node.children[name].Dir?
    requires leaf in Leaves(above + [name], node.children[name])
    ensures leaf in Leaves(above, node)
  {
    var dirs := Sorted(DirNames(node.children));
    assert forall i :: 0 <= i < |dirs| ==> dirs[i] in dirs;
    assert name in dirs;
    BelowHolds(above, node, dirs, name, leaf);
  }

  lemma {:induction false} BelowHolds(above: seq<string>, node: Node, names: seq<string>, name: string, leaf: Leaf)
    requires node.Dir? && (forall i :: 0 <= i < |names| ==> names[i] in DirNames(node.children))
    requires name in names && name in DirNames(node.children)
    requires leaf in Leaves(above + [name], node.children[name])
    ensures leaf in LeavesBelow(above, node, names)
    decreases |names|
  {
    if name != names[|names| - 1] {
      BelowHolds(above, node, names[..|names| - 1], name, leaf);
    }
  }

  ghost predicate IsLeafOf(above: seq<string>, node: Node, leaf: Leaf) {
    && above < leaf.path
    && LeafAt(node, leaf.path[|above|..]) == Some(leaf.body)
  }

  lemma HereIsLeaf(above: seq<string>, node: Node, leaf: Leaf)
    requires node.Dir? && leaf in LeavesHere(above, node)
    ensures IsLeafOf(above, node, leaf)
  {
    var names := Listed(node.children);
    var i :| 0 <= i < |names| && LeavesHere(above, node)[i] == leaf;
    assert names[i] in names;
    assert leaf.path[|above|..] == [names[i]];
    assert leaf.path[|above|..][1..] == [];
  }

  lemma {:induction false} ListedIsLeaf(above: seq<string>, node: Node, leaf: Leaf)
    requires node.Dir? && leaf in Leaves(above, node)
    ensures IsLeafOf(above, node, leaf)
    decreases node, 1, 0
  {
    if leaf in LeavesHere(above, node) {
      HereIsLeaf(above, node, leaf);
    } else {
      var dirs := Sorted(DirNames(node.children));
      assert forall i :: 0 <= i < |dirs| ==> dirs[i] in dirs;
      BelowIsLeaf(above, node, dirs, leaf);
    }
  }

  lemma DeeperLeaf(above: seq<string>, node: Node, name: string, leaf: Leaf)
    requires node.Dir? && name in node.children && IsLeafOf(above + [name], node.children[name], leaf)
    ensures IsLeafOf(above, node, leaf)
  {
    assert leaf.path[|above|..] == [name] + leaf.path[|above| + 1..];
    assert leaf.path[|above|..][1..] == leaf.path[|above + [name]|..];
  }

  lemma {:induction false} BelowIsLeaf(above: seq<string>, node: Node, names: seq<string>, leaf: Leaf)
    requires node.Dir? && (forall i :: 0 <= i < |names| ==> names[i] in DirNames(node.children))
    requires leaf in LeavesBelow(above, node, names)
    ensures IsLeafOf(above, node, leaf)
    decreases node, 0, |names|
  {
    var init, name := names[..|names| - 1], names[|names| - 1];
    if leaf in LeavesBelow(above, node, init) {
      BelowIsLeaf(above, node, init, leaf);
    } else {
      ListedIsLeaf(above + [name], node.children[name], leaf);
      DeeperLeaf(above, node, name, leaf);
    }
  }

  /** A tree of names a file system allows, whose files and links hold no NUL. */
  ghost predicate Clean(node: Node) {
    match node
    case Dir(children) => forall name :: name in children ==> '/' !in name && NUL !in name && Clean(children[name])
    case _ => NUL !in Body(node)
  }

  lemma {:induction false} CleanLeaf(node: Node, path: seq<string>)
    requires Clean(node) && LeafAt(node, path).Some?
    ensures (forall name :: name in path ==> '/' !in name && NUL !in name) && NUL !in LeafAt(node, path).value
    decreases path
  {
    if path != [] {
      CleanLeaf(node.children[path[0]], path[1..]);
      assert path == [path[0]] + path[1..];
    }
  }

  lemma CleanLeaves(node: Node)
    requires node.Dir? && Clean(node)
    ensures NulFree(Leaves([], node))
  {
    forall leaf | leaf in Leaves([], node) ensures Names(leaf.path) && NUL !in leaf.body {
      ListedIsLeaf([], node, leaf);
      assert leaf.path[0..] == leaf.path;
      CleanLeaf(node, leaf.path);
    }
  }

  lemma SameLeafIn(a: Node, b: Node, path: seq<string>)
    requires a.Dir? && b.Dir? && Leaves([], a) == Leaves([], b) && LeafAt(a, path).Some?
    ensures LeafAt(b, path) == LeafAt(a, path)
  {
    var leaf := Leaf([] + path, LeafAt(a, path).value);
    LeafIsListed([], a, path);
    ListedIsLeaf([], b, leaf);
    assert leaf.path[0..] == path;
  }

  /** Equal hash inputs: the same file, link or special file at every path. */
  lemma EqualInputEqualConfig(a: Node, b: Node, path: seq<string>)
    requires a.Dir? && b.Dir? && Clean(a) && Clean(b) && HashInput(a) == HashInput(b)
    ensures LeafAt(a, path) == LeafAt(b, path)
  {
    CleanLeaves(a);
    CleanLeaves(b);
    StreamInjective(Leaves([], a), Leaves([], b));
    if LeafAt(a, path).Some? {
      SameLeafIn(a, b, path);
    } else if LeafAt(b, path).Some? {
      SameLeafIn(b, a, path);
    }
  }

  /** A body tells the kind of leaf and what it holds. */
  lemma BodyTells(a: Node, b: Node)
    requires !a.Dir? && !b.Dir? && Body(a) == Body(b)
    ensures a == b || (a.Link? && b.Link? && a.target == b.target)
  {
    assert forall n: Node :: (n.File? ==> Body(n)[0] == 'F') && (n.Link? ==> Body(n)[0] == 'L');
    if a.File? && b.File? {
      assert Body(a)[1..] == a.content && Body(b)[1..] == b.content;
    } else if a.Link? && b.Link? {
      assert Body(a)[1..] == a.target && Body(b)[1..] == b.target;
    }
  }

  // ----- where it does not -----

  /** A file and a directory of clean contents hash alike exactly when both are empty. */
  lemma FileLikeDirectory(file: Node, dir: Node)
    requires file.File? && dir.Dir? && Clean(file) && Clean(dir)
    ensures HashInput(file) == HashInput(dir) <==> file.content == "" && Leaves([], dir) == []
  {
  }

  lemma OneLeaf(name: string, n: Node)
    requires !n.Dir?
    ensures HashInput(Dir(map[name := n])) == name + [NUL] + Body(n) + [NUL]
  {
    var children := map[name := n];
    OneListed(name, n);
    var leaf := Leaf([name], Body(n));
    assert [] + [name] == [name];
    assert LeavesHere([], Dir(children)) == [leaf];
    assert Leaves([], Dir(children)) == [leaf];
    OneFed(leaf);
    assert Join(leaf.path) == name;
  }

  lemma OneListed(name: string, n: Node)
    requires !n.Dir?
    ensures Listed(map[name := n]) == [name] && DirNames(map[name := n]) == {}
  {
    var children := map[name := n];
    SingleName(name);
    if n.Link? && n.toDir {
      assert DirLinkNames(children) == {name} && FileNames(children) == {};
    } else {
      assert DirLinkNames(children) == {} && FileNames(children) == {name};
    }
  }

  lemma OneFed(leaf: Leaf)
    ensures Stream([leaf]) == Fed(leaf)
  {
    assert [leaf][..0] == [];
  }

  lemma SingleName(name: string)
    ensures Sorted({name}) == [name]
  {
    assert Least({name}) == name;
    assert {name} - {name} == {};
  }

  lemma TwoFiles(x: string, y: string)
    ensures HashInput(Dir(map["a" := File(x), "b" := File(y)])) == Fed(Leaf(["a"], "F" + x)) + Fed(Leaf(["b"], "F" + y))
  {
    var children := map["a" := File(x), "b" := File(y)];
    assert FileNames(children) == {"a", "b"} && DirLinkNames(children) == {} && DirNames(children) == {};
    LeastOfTwo();
    assert {"a", "b"} - {"a"} == {"b"};
    SingleName("b");
    assert Listed(children) == ["a", "b"];
    var a, b := Leaf(["a"], "F" + x), Leaf(["b"], "F" + y);
    assert [] + ["a"] == ["a"] && [] + ["b"] == ["b"];
    assert LeavesHere([], Dir(children)) == [a, b];
    assert Leaves([], Dir(children)) == [a, b];
    TwoFed(a, b);
  }

  lemma TwoFed(a: Leaf, b: Leaf)
    ensures Stream([a, b]) == Fed(a) + Fed(b)
  {
    StreamConcat([a], [b]);
    assert [a] + [b] == [a, b];
    OneFed(a);
    OneFed(b);
  }

  lemma LeastOfTwo()
    ensures Least({"a", "b"}) == "a"
  {
    assert Le("a", "b") && !Le("b", "a");
  }

  /** With a NUL in a file the stream no longer tells: one file of two, or two files. */
  lemma NulCollides(x: string, y: string)
    ensures var one, two := Dir(map["a" := File(x + [NUL] + "b" + [NUL] + "F" + y)]),
      Dir(map["a" := File(x), "b" := File(y)]);
      HashInput(one) == HashInput(two) && LeafAt(one, ["b"]) != LeafAt(two, ["b"])
  {
    OneLeaf("a", File(x + [NUL] + "b" + [NUL] + "F" + y));
    TwoFiles(x, y);
    SameBytes(x, y);
    var two := Dir(map["a" := File(x), "b" := File(y)]);
    assert LeafAt(two, ["b"]) == LeafAt(File(y), ["b"][1..]);
    assert ["b"][1..] == [];
  }

  lemma SameBytes(x: string, y: string)
    ensures "a" + [NUL] + ("F" + (x + [NUL] + "b" + [NUL] + "F" + y)) + [NUL]
         == Fed(Leaf(["a"], "F" + x)) + Fed(Leaf(["b"], "F" + y))
  {
    assert Join(["a"]) == "a" && Join(["b"]) == "b";
  }
}
