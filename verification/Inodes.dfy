/** The tree of inodes that an archive becomes, and the path walk over it: `makeFile` and
    `lookup` of source/Cpio.cpp, `lookup` of source/Fs.cpp. */
module Inodes {
  import opened Common
  import opened Paths

  /** `folder` tells a folder inode from a file inode; `mode` is what `i_mode` says. */
  datatype Inode = Inode(name: Name, mode: nat, folder: bool, children: seq<nat>, size: nat, data: seq<Byte>)

  /** Inodes refer to each other by position; the root is at 0. */
  type Tree = seq<Inode>

  const S_IFDIR: nat := 0x4000

  /** The file type bits say directory. */
  predicate IsDirectory(mode: nat) {
    mode / 0x1000 % 16 == 4
  }

  /** The type is the top four of the sixteen bits. */
  lemma DirectoryBits(kind: nat, rights: nat)
    requires kind < 16 && rights < 0x1000
    ensures IsDirectory(kind * 0x1000 + rights) <==> kind * 0x1000 == S_IFDIR
  {
    assert (kind * 0x1000 + rights) / 0x1000 == kind;
  }

  const EMPTY: Tree := [Inode([], 0, true, [], 0, [])]

  /** First child with the name, as `lookup` of a folder finds it. */
  function ChildNamed(t: Tree, children: seq<nat>, name: Name): Option<nat> {
    if children == [] then None
    else if children[0] < |t| && t[children[0]].name == name then Some(children[0])
    else ChildNamed(t, children[1..], name)
  }

  /** The walk along `parts` from inode `n`. */
  function Find(t: Tree, n: nat, parts: seq<Name>): (r: Option<nat>)
    ensures r.Some? ==> r.value < |t|
    decreases |parts|
  {
    if n >= |t| then None
    else if parts == [] then Some(n)
    else match ChildNamed(t, t[n].children, parts[0])
         case None => None
         case Some(c) => Find(t, c, parts[1..])
  }

  function Push(t: Tree, x: nat, node: Inode): Tree
    requires x < |t|
  {
    t[x := t[x].(children := t[x].children + [|t|])] + [node]
  }

  /** Every child is where its name says, so that no inode is reached by two paths. */
  ghost predicate Placed(t: Tree, place: seq<seq<Name>>) {
    && |place| == |t| && t != [] && t[0].folder && place[0] == []
    && forall n, j :: 0 <= n < |t| && 0 <= j < |t[n].children| ==> ChildPlaced(t, place, n, t[n].children[j])
  }

  predicate ChildPlaced(t: Tree, place: seq<seq<Name>>, n: nat, c: nat)
    requires n < |t| == |place|
  {
    c < |t| && place[c] == place[n] + [t[c].name]
  }

  lemma {:induction false} ChildNamedIs(t: Tree, children: seq<nat>, name: Name)
    ensures var c := ChildNamed(t, children, name);
      c.Some? ==> c.value in children && c.value < |t| && t[c.value].name == name
    decreases |children|
  {
    if children != [] {
      ChildNamedIs(t, children[1..], name);
    }
  }

  /** Child number `j` has the name. */
  predicate Bears(t: Tree, children: seq<nat>, j: int, name: Name) {
    0 <= j < |children| && children[j] < |t| && t[children[j]].name == name
  }

  /** The first child of the name is found, and none if and only if there is none. */
  lemma {:induction false} ChildNamedFirst(t: Tree, children: seq<nat>, name: Name)
    ensures var c := ChildNamed(t, children, name);
      && (c.None? <==> forall j :: !Bears(t, children, j, name))
      && (c.Some? ==> exists j :: Bears(t, children, j, name) && children[j] == c.value
                                  && forall i :: i < j ==> !Bears(t, children, i, name))
    decreases |children|
  {
    if children != [] {
      var rest := children[1..];
      ChildNamedFirst(t, rest, name);
      forall j | j > 0 ensures Bears(t, children, j, name) <==> Bears(t, rest, j - 1, name) {
      }
      if Bears(t, children, 0, name) {
        assert ChildNamed(t, children, name) == Some(children[0]);
      } else if ChildNamed(t, rest, name).Some? {
        var j :| Bears(t, rest, j, name) && rest[j] == ChildNamed(t, rest, name).value
                 && forall i :: i < j ==> !Bears(t, rest, i, name);
        assert Bears(t, children, j + 1, name);
      } else {
        forall j ensures !Bears(t, children, j, name) {
          assert j > 0 ==> !Bears(t, rest, j - 1, name);
        }
      }
    }
  }

  /** Walking along `parts` from `n` ends at the place of `n` followed by `parts`. */
  lemma {:induction false} FindPlace(t: Tree, place: seq<seq<Name>>, n: nat, parts: seq<Name>)
    requires Placed(t, place) && n < |t|
    ensures var m := Find(t, n, parts); m.Some? ==> m.value < |t| && place[m.value] == place[n] + parts
    decreases |parts|
  {
    if parts != [] {
      ChildNamedIs(t, t[n].children, parts[0]);
      match ChildNamed(t, t[n].children, parts[0])
      case None =>
      case Some(c) =>
        var j :| 0 <= j < |t[n].children| && t[n].children[j] == c;
        assert ChildPlaced(t, place, n, t[n].children[j]);
        FindPlace(t, place, c, parts[1..]);
        assert [parts[0]] + parts[1..] == parts;
    }
  }

  lemma {:induction false} ChildNamedAfterPush(t: Tree, x: nat, node: Inode, children: seq<nat>, name: Name)
    requires x < |t| && forall c :: c in children ==> c < |t|
    ensures ChildNamed(Push(t, x, node), children, name) == ChildNamed(t, children, name)
    ensures ChildNamed(Push(t, x, node), children + [|t|], name) ==
      match ChildNamed(t, children, name)
      case Some(c) => Some(c)
      case None => if node.name == name then Some(|t|) else None
    decreases |children|
  {
    if children != [] {
      assert children[0] in children;
      assert forall c :: c in children[1..] ==> c in children;
      ChildNamedAfterPush(t, x, node, children[1..], name);
      assert (children + [|t|])[1..] == children[1..] + [|t|];
    }
  }

  /** A new last child of `x` is found by its name below `x`; nothing else changes. */
  lemma {:induction false} PushFind(t: Tree, place: seq<seq<Name>>, x: nat, node: Inode, n: nat, parts: seq<Name>)
    requires Placed(t, place) && x < |t| && n < |t| && node.children == []
    ensures Find(Push(t, x, node), n, parts) ==
      match Find(t, n, parts)
      case Some(m) => Some(m)
      case None =>
        if parts != [] && Find(t, n, parts[..|parts| - 1]) == Some(x) && parts[|parts| - 1] == node.name then Some(|t|)
        else None
    decreases |parts|
  {
    if parts != [] {
      var t' := Push(t, x, node);
      ChildrenInside(t, place, n);
      ChildNamedAfterPush(t, x, node, t[n].children, parts[0]);
      ChildNamedIs(t, t[n].children, parts[0]);
      var rest := parts[1..];
      match ChildNamed(t, t[n].children, parts[0])
      case Some(c) =>
        PushFind(t, place, x, node, c, rest);
        if rest != [] {
          assert parts[..|parts| - 1][1..] == rest[..|rest| - 1];
        }
      case None =>
        if n == x && parts[0] == node.name {
          assert Find(t', |t|, rest) == if rest == [] then Some(|t|) else None;
        }
    }
  }

  lemma ChildrenInside(t: Tree, place: seq<seq<Name>>, n: nat)
    requires Placed(t, place) && n < |t|
    ensures forall c :: c in t[n].children ==> c < |t|
  {
    forall c | c in t[n].children ensures c < |t| {
      var j :| 0 <= j < |t[n].children| && t[n].children[j] == c;
      assert ChildPlaced(t, place, n, t[n].children[j]);
    }
  }

  // ----- making a file

  /** `EmptyName` stands for the failed assertion on an empty component, and `CastFile` for
      taking a file inode whose mode says directory for a folder. */
  datatype Made = Made(id: nat) | NotADirectory | EmptyName | CastFile

  function Folder(name: Name): Inode {
    Inode(name, S_IFDIR, true, [], 0, [])
  }

  function File(name: Name): Inode {
    Inode(name, 0, false, [], 0, [])
  }

  datatype Making = Making(tree: Tree, made: Made)

  /** `makeFile` component by component: folders on the way are found or created. */
  function MakePath(t: Tree, cur: nat, parts: seq<Name>): Making
    requires parts != []
    decreases |parts|
  {
    if cur >= |t| then Making(t, NotADirectory)
    else if parts[0] == [] then Making(t, EmptyName)
    else if |parts| == 1 then Making(Push(t, cur, File(parts[0])), Made(|t|))
    else match ChildNamed(t, t[cur].children, parts[0])
         case Some(c) =>
           if c >= |t| || !IsDirectory(t[c].mode) then Making(t, NotADirectory)
           else if !t[c].folder then Making(t, CastFile)
           else MakePath(t, c, parts[1..])
         case None => MakePath(Push(t, cur, Folder(parts[0])), |t|, parts[1..])
  }

  /** Everything that stands on the way to `target` is a folder, and says so. */
  ghost predicate WayFree(t: Tree, target: seq<Name>) {
    && Find(t, 0, target).None?
    && forall q :: q < target && q != [] && Find(t, 0, q).Some? ==>
         var m := Find(t, 0, q).value; m < |t| && t[m].folder && IsDirectory(t[m].mode)
  }

  /** Inodes keep everything but their list of children. */
  predicate SameBut(a: Inode, b: Inode) {
    a == b.(children := a.children)
  }

  /** What making `target` does to every path. */
  ghost predicate MadeFile(t: Tree, t': Tree, target: seq<Name>, id: nat) {
    && |t| <= id < |t'| && Find(t', 0, target) == Some(id) && target != [] && t'[id] == File(target[|target| - 1])
    && (forall n :: 0 <= n < |t| ==> SameBut(t'[n], t[n]))
    && (forall q :: Find(t, 0, q).Some? ==> Find(t', 0, q) == Find(t, 0, q))
    && (forall q :: Find(t, 0, q).None? && Find(t', 0, q).Some? ==>
          q <= target && NewInode(t, t', target, q, Find(t', 0, q).value))
  }

  predicate NewInode(t: Tree, t': Tree, target: seq<Name>, q: seq<Name>, m: nat) {
    |t| <= m < |t'| && (q < target ==> t'[m].folder && IsDirectory(t'[m].mode))
  }

  lemma {:induction false} FindSnoc(t: Tree, n: nat, p: seq<Name>, x: Name)
    ensures Find(t, n, p + [x]) ==
      match Find(t, n, p)
      case None => None
      case Some(m) => match ChildNamed(t, t[m].children, x) case None => None case Some(c) => Find(t, c, [])
    decreases |p|
  {
    if p != [] && n < |t| {
      assert (p + [x])[1..] == p[1..] + [x];
      match ChildNamed(t, t[n].children, p[0])
      case None =>
      case Some(c) => FindSnoc(t, c, p[1..], x);
    } else if n < |t| {
      assert (p + [x])[1..] == [];
    }
  }

  lemma PushPlaced(t: Tree, place: seq<seq<Name>>, x: nat, node: Inode)
    requires Placed(t, place) && x < |t| && node.children == []
    ensures Placed(Push(t, x, node), place + [place[x] + [node.name]])
  {
    var t', place' := Push(t, x, node), place + [place[x] + [node.name]];
    forall n, j | 0 <= n < |t'| && 0 <= j < |t'[n].children| ensures ChildPlaced(t', place', n, t'[n].children[j]) {
      if n < |t| && j < |t[n].children| {
        assert ChildPlaced(t, place, n, t[n].children[j]);
      }
    }
  }

  /** Where `q` leads when one more inode has been put at `path`, if nothing was there. */
  function Extended(t: Tree, path: seq<Name>, q: seq<Name>): Option<nat> {
    if Find(t, 0, q).None? && q == path then Some(|t|) else Find(t, 0, q)
  }

  /** Pushing below the inode at `base` makes exactly one more path lead somewhere. */
  lemma PushMakes(t: Tree, place: seq<seq<Name>>, cur: nat, base: seq<Name>, node: Inode, q: seq<Name>)
    requires Placed(t, place) && Find(t, 0, base) == Some(cur) && cur < |t| && node.children == []
    ensures Find(Push(t, cur, node), 0, q) == Extended(t, base + [node.name], q)
  {
    PushFind(t, place, cur, node, 0, q);
    FindPlace(t, place, 0, base);
    if q != [] {
      var parent := q[..|q| - 1];
      FindPlace(t, place, 0, parent);
      assert place[0] + base == base && place[0] + parent == parent;
      assert q == parent + [q[|q| - 1]];
      assert q == base + [node.name] ==> parent == base;
    }
  }

  lemma MakeLast(t: Tree, place: seq<seq<Name>>, cur: nat, base: seq<Name>, name: Name)
    requires Placed(t, place) && Find(t, 0, base) == Some(cur) && cur < |t| && Find(t, 0, base + [name]).None?
    ensures MadeFile(t, Push(t, cur, File(name)), base + [name], |t|)
  {
    hide Find, Placed;
    var t' := Push(t, cur, File(name));
    forall q ensures Find(t', 0, q) == Extended(t, base + [name], q) {
      PushMakes(t, place, cur, base, File(name), q);
    }
  }

  /** A folder created on the way, then the rest. */
  lemma ThroughNewFolder(t: Tree, t1: Tree, t': Tree, base: seq<Name>, target: seq<Name>, id: nat)
    requires MadeFile(t1, t', target, id) && base < target && |t1| == |t| + 1
    requires t1[|t|].folder && IsDirectory(t1[|t|].mode) && forall n :: 0 <= n < |t| ==> SameBut(t1[n], t[n])
    requires forall q :: Find(t1, 0, q) == Extended(t, base, q)
    ensures MadeFile(t, t', target, id)
  {
    hide Find;
    forall q | Find(t, 0, q).None? && Find(t', 0, q).Some?
      ensures q <= target && NewInode(t, t', target, q, Find(t', 0, q).value)
    {
      if q == base {
        assert Find(t1, 0, q) == Some(|t|);
        assert SameBut(t'[|t|], t1[|t|]);
      } else {
        assert Find(t1, 0, q).None?;
      }
    }
    forall n | 0 <= n < |t| ensures SameBut(t'[n], t[n]) {
      assert SameBut(t'[n], t1[n]) && SameBut(t1[n], t[n]);
    }
  }

  lemma StillFree(t: Tree, t1: Tree, base: seq<Name>, target: seq<Name>)
    requires WayFree(t, target) && base < target && |t1| == |t| + 1
    requires t1[|t|].folder && IsDirectory(t1[|t|].mode) && forall n :: 0 <= n < |t| ==> SameBut(t1[n], t[n])
    requires forall q :: Find(t1, 0, q) == Extended(t, base, q)
    ensures WayFree(t1, target)
  {
    hide Find;
    forall q | q < target && q != [] && Find(t1, 0, q).Some?
      ensures var m := Find(t1, 0, q).value; m < |t1| && t1[m].folder && IsDirectory(t1[m].mode)
    {
      if Find(t, 0, q).Some? {
        var m := Find(t, 0, q).value;
        assert SameBut(t1[m], t[m]);
      }
    }
  }

  /** `makeFile` on a free way creates the file, creates the missing folders, and leaves every
      other path as it was. */
  lemma {:induction false} MakePathMakes(t: Tree, place: seq<seq<Name>>, cur: nat, base: seq<Name>, parts: seq<Name>)
    returns (place': seq<seq<Name>>)
    requires Placed(t, place) && Find(t, 0, base) == Some(cur) && cur < |t| && parts != []
    requires (forall i :: 0 <= i < |parts| ==> parts[i] != []) && WayFree(t, base + parts)
    ensures var r := MakePath(t, cur, parts);
      r.made.Made? && MadeFile(t, r.tree, base + parts, r.made.id) && Placed(r.tree, place')
    decreases |parts|
  {
    hide Find, Placed, MadeFile, WayFree;
    var name := parts[0];
    var next := base + [name];
    assert next + parts[1..] == base + parts;
    if |parts| == 1 {
      assert next == base + parts;
      FreeHere(t, next);
      MakeLast(t, place, cur, base, name);
      PushPlaced(t, place, cur, File(name));
      place' := place + [place[cur] + [name]];
    } else {
      FindSnoc(t, 0, base, name);
      ChildNamedIs(t, t[cur].children, name);
      assert next < base + parts;
      match ChildNamed(t, t[cur].children, name)
      case Some(c) =>
        FindSelf(t, c);
        FolderHere(t, next, base + parts);
        place' := MakePathMakes(t, place, c, next, parts[1..]);
      case None =>
        var t1 := Push(t, cur, Folder(name));
        forall q ensures Find(t1, 0, q) == Extended(t, next, q) {
          PushMakes(t, place, cur, base, Folder(name), q);
        }
        PushPlaced(t, place, cur, Folder(name));
        StillFree(t, t1, next, base + parts);
        place' := MakePathMakes(t1, place + [place[cur] + [name]], |t|, next, parts[1..]);
        var r := MakePath(t1, |t|, parts[1..]);
        ThroughNewFolder(t, t1, r.tree, next, base + parts, r.made.id);
    }
  }

  lemma FreeHere(t: Tree, target: seq<Name>)
    requires WayFree(t, target)
    ensures Find(t, 0, target).None?
  {
  }

  lemma FindSelf(t: Tree, c: nat)
    requires c < |t|
    ensures Find(t, c, []) == Some(c)
  {
  }

  lemma FolderHere(t: Tree, q: seq<Name>, target: seq<Name>)
    requires WayFree(t, target) && q < target && q != [] && Find(t, 0, q).Some?
    ensures var m := Find(t, 0, q).value; m < |t| && t[m].folder && IsDirectory(t[m].mode)
  {
  }

  // ----- when no file is made

  /** Children are inodes of the tree. */
  ghost predicate Inside(t: Tree) {
    forall n, c :: 0 <= n < |t| && c in t[n].children ==> c < |t|
  }

  predicate FolderAt(t: Tree, m: nat) {
    m < |t| && t[m].folder && IsDirectory(t[m].mode)
  }

  /** The first `n` components have names, and lead to folders as far as they lead anywhere. */
  ghost predicate Passable(t: Tree, cur: nat, parts: seq<Name>, n: nat) {
    n <= |parts| && forall i :: 0 <= i < n ==> parts[i] != [] && Opens(t, cur, parts, i)
  }

  predicate Opens(t: Tree, cur: nat, parts: seq<Name>, i: nat) {
    i < |parts| && var m := Find(t, cur, parts[..i + 1]); m.Some? ==> FolderAt(t, m.value)
  }

  /** Component `n`, not the last, leads to an inode of the tree. */
  ghost predicate Meets(t: Tree, cur: nat, parts: seq<Name>, n: nat, m: nat) {
    && n + 1 < |parts| && Passable(t, cur, parts, n) && parts[n] != []
    && m < |t| && Find(t, cur, parts[..n + 1]) == Some(m)
  }

  ghost predicate Blocked(t: Tree, cur: nat, parts: seq<Name>) {
    exists n: nat, m: nat :: Meets(t, cur, parts, n, m) && !IsDirectory(t[m].mode)
  }

  ghost predicate Miscast(t: Tree, cur: nat, parts: seq<Name>) {
    exists n: nat, m: nat :: Meets(t, cur, parts, n, m) && IsDirectory(t[m].mode) && !t[m].folder
  }

  ghost predicate Nameless(t: Tree, cur: nat, parts: seq<Name>) {
    exists n: nat :: EmptyAt(t, cur, parts, n)
  }

  ghost predicate EmptyAt(t: Tree, cur: nat, parts: seq<Name>, n: nat) {
    n < |parts| && Passable(t, cur, parts, n) && parts[n] == []
  }

  /** The walk from `cur` is the walk from its child, one component later. */
  lemma FindChild(t: Tree, cur: nat, parts: seq<Name>, c: nat, i: nat)
    requires cur < |t| && i < |parts| && ChildNamed(t, t[cur].children, parts[0]) == Some(c)
    ensures Find(t, cur, parts[..i + 1]) == Find(t, c, parts[1..][..i])
  {
    assert parts[..i + 1][1..] == parts[1..][..i];
  }

  lemma FindNobody(t: Tree, cur: nat, parts: seq<Name>, i: nat)
    requires cur < |t| && i < |parts| && ChildNamed(t, t[cur].children, parts[0]) == None
    ensures Find(t, cur, parts[..i + 1]) == None
  {
  }

  lemma PassableChild(t: Tree, cur: nat, parts: seq<Name>, c: nat, n: nat)
    requires cur < |t| && parts != [] && c < |t| && ChildNamed(t, t[cur].children, parts[0]) == Some(c) && n < |parts|
    requires parts[0] != [] && FolderAt(t, c)
    ensures Passable(t, cur, parts, n + 1) <==> Passable(t, c, parts[1..], n)
  {
    hide Find, ChildNamed;
    var rest := parts[1..];
    FindChild(t, cur, parts, c, 0);
    FindSelf(t, c);
    assert Opens(t, cur, parts, 0);
    forall i | 0 <= i < n ensures Opens(t, cur, parts, i + 1) <==> Opens(t, c, rest, i) {
      FindChild(t, cur, parts, c, i + 1);
    }
    if Passable(t, c, rest, n) {
      forall i | 0 <= i < n + 1 ensures parts[i] != [] && Opens(t, cur, parts, i) {
        assert i > 0 ==> parts[i] == rest[i - 1] && Opens(t, c, rest, i - 1);
      }
    }
    if Passable(t, cur, parts, n + 1) {
      forall i | 0 <= i < n ensures rest[i] != [] && Opens(t, c, rest, i) {
        assert parts[i + 1] == rest[i] && Opens(t, cur, parts, i + 1);
      }
    }
  }

  lemma MeetsChild(t: Tree, cur: nat, parts: seq<Name>, c: nat, n: nat, m: nat)
    requires cur < |t| && |parts| > 1 && c < |t| && ChildNamed(t, t[cur].children, parts[0]) == Some(c)
    requires parts[0] != [] && FolderAt(t, c)
    ensures Meets(t, cur, parts, n + 1, m) <==> Meets(t, c, parts[1..], n, m)
    ensures EmptyAt(t, cur, parts, n + 1) <==> EmptyAt(t, c, parts[1..], n)
  {
    hide Find, ChildNamed, Passable;
    if n + 1 < |parts| {
      PassableChild(t, cur, parts, c, n);
      FindChild(t, cur, parts, c, n + 1);
    }
  }

  /** Below a new folder nothing is met any more: only an empty name can stop the rest. */
  lemma {:induction false} BelowNew(t: Tree, cur: nat, parts: seq<Name>)
    requires cur < |t| && t[cur].children == [] && parts != []
    ensures var r := MakePath(t, cur, parts);
      if exists n :: 0 <= n < |parts| && parts[n] == [] then r.made == EmptyName else r.made.Made?
    decreases |parts|
  {
    if parts[0] != [] && |parts| > 1 {
      var t1, rest := Push(t, cur, Folder(parts[0])), parts[1..];
      BelowNew(t1, |t|, rest);
      if n :| 0 <= n < |parts| && parts[n] == [] {
        assert rest[n - 1] == [];
      }
      if n :| 0 <= n < |rest| && rest[n] == [] {
        assert parts[n + 1] == [];
      }
    }
  }

  /** What `makeFile` answers, for every path: it stops at the first component that leads to no
      directory, changing nothing, or at a file that says it is one, or at an empty name. */
  lemma {:induction false} MakePathOutcome(t: Tree, cur: nat, parts: seq<Name>)
    requires Inside(t) && cur < |t| && parts != []
    ensures var r := MakePath(t, cur, parts);
      && (r.made == NotADirectory <==> Blocked(t, cur, parts))
      && (r.made == CastFile <==> Miscast(t, cur, parts))
      && (r.made == EmptyName <==> Nameless(t, cur, parts))
      && (r.made == NotADirectory || r.made == CastFile ==> r.tree == t)
    decreases |parts|
  {
    hide Find, Passable, Meets, EmptyAt;
    if parts[0] == [] || |parts| == 1 {
      OneComponent(t, cur, parts);
    } else {
      ChildNamedIs(t, t[cur].children, parts[0]);
      match ChildNamed(t, t[cur].children, parts[0])
      case None => NewFolderOutcome(t, cur, parts);
      case Some(c) =>
        if FolderAt(t, c) {
          MakePathOutcome(t, c, parts[1..]);
          Deeper(t, cur, parts, c);
        } else {
          StopsHere(t, cur, parts, c);
        }
    }
  }

  lemma OneComponent(t: Tree, cur: nat, parts: seq<Name>)
    requires cur < |t| && parts != [] && (parts[0] == [] || |parts| == 1)
    ensures !Blocked(t, cur, parts) && !Miscast(t, cur, parts) && (Nameless(t, cur, parts) <==> parts[0] == [])
  {
    hide Find;
    assert Passable(t, cur, parts, 0);
    assert parts[0] == [] ==> EmptyAt(t, cur, parts, 0);
  }

  lemma NewFolderOutcome(t: Tree, cur: nat, parts: seq<Name>)
    requires cur < |t| && |parts| > 1 && parts[0] != [] && ChildNamed(t, t[cur].children, parts[0]) == None
    ensures var r := MakePath(t, cur, parts);
      && r.made != NotADirectory && r.made != CastFile && !Blocked(t, cur, parts) && !Miscast(t, cur, parts)
      && (r.made == EmptyName <==> Nameless(t, cur, parts))
  {
    hide Find;
    var rest := parts[1..];
    BelowNew(Push(t, cur, Folder(parts[0])), |t|, rest);
    forall i | 0 <= i < |parts| ensures LeadsNowhere(t, cur, parts, i) {
      FindNobody(t, cur, parts, i);
    }
    forall n: nat, m: nat ensures !Meets(t, cur, parts, n, m) {
      assert n < |parts| ==> LeadsNowhere(t, cur, parts, n);
    }
    forall i | 0 <= i < |parts| ensures Opens(t, cur, parts, i) {
      assert LeadsNowhere(t, cur, parts, i);
    }
    if n :| 0 <= n < |rest| && rest[n] == [] {
      var first := FirstEmpty(parts, n + 1);
      assert EmptyAt(t, cur, parts, first);
    }
    if n: nat :| EmptyAt(t, cur, parts, n) {
      assert rest[n - 1] == [];
    }
  }

  predicate LeadsNowhere(t: Tree, cur: nat, parts: seq<Name>, i: nat) {
    i < |parts| && Find(t, cur, parts[..i + 1]).None?
  }

  function FirstEmpty(parts: seq<Name>, n: nat): (first: nat)
    requires n < |parts| && parts[n] == []
    ensures first < |parts| && parts[first] == [] && forall i :: 0 <= i < first ==> parts[i] != []
  {
    if parts[0] == [] then 0 else
      var first := FirstEmpty(parts[1..], n - 1);
      assert forall i :: 0 < i < first + 1 ==> parts[i] == parts[1..][i - 1];
      first + 1
  }

  lemma Deeper(t: Tree, cur: nat, parts: seq<Name>, c: nat)
    requires cur < |t| && |parts| > 1 && parts[0] != [] && ChildNamed(t, t[cur].children, parts[0]) == Some(c)
    requires FolderAt(t, c)
    ensures Blocked(t, cur, parts) <==> Blocked(t, c, parts[1..])
    ensures Miscast(t, cur, parts) <==> Miscast(t, c, parts[1..])
    ensures Nameless(t, cur, parts) <==> Nameless(t, c, parts[1..])
  {
    hide ChildNamed, Passable;
    var rest := parts[1..];
    forall n: nat, m: nat ensures Meets(t, cur, parts, n + 1, m) <==> Meets(t, c, rest, n, m) {
      MeetsChild(t, cur, parts, c, n, m);
    }
    forall n: nat ensures EmptyAt(t, cur, parts, n + 1) <==> EmptyAt(t, c, rest, n) {
      MeetsChild(t, cur, parts, c, n, 0);
    }
    FindChild(t, cur, parts, c, 0);
    FindSelf(t, c);
    hide Find;
    forall m: nat ensures Meets(t, cur, parts, 0, m) ==> m == c {
    }
    ShiftedBlock(t, cur, parts, c);
  }

  lemma ShiftedBlock(t: Tree, cur: nat, parts: seq<Name>, c: nat)
    requires FolderAt(t, c) && parts != [] && parts[0] != []
    requires forall n: nat, m: nat :: Meets(t, cur, parts, n + 1, m) <==> Meets(t, c, parts[1..], n, m)
    requires forall n: nat :: EmptyAt(t, cur, parts, n + 1) <==> EmptyAt(t, c, parts[1..], n)
    requires forall m: nat :: Meets(t, cur, parts, 0, m) ==> m == c
    ensures Blocked(t, cur, parts) <==> Blocked(t, c, parts[1..])
    ensures Miscast(t, cur, parts) <==> Miscast(t, c, parts[1..])
    ensures Nameless(t, cur, parts) <==> Nameless(t, c, parts[1..])
  {
    hide Find, Passable;
    var rest := parts[1..];
    if n: nat, m: nat :| Meets(t, cur, parts, n, m) && !IsDirectory(t[m].mode) {
      assert Meets(t, c, rest, n - 1, m);
    }
    if n: nat, m: nat :| Meets(t, c, rest, n, m) && !IsDirectory(t[m].mode) {
      assert Meets(t, cur, parts, n + 1, m);
    }
    if n: nat, m: nat :| Meets(t, cur, parts, n, m) && IsDirectory(t[m].mode) && !t[m].folder {
      assert Meets(t, c, rest, n - 1, m);
    }
    if n: nat, m: nat :| Meets(t, c, rest, n, m) && IsDirectory(t[m].mode) && !t[m].folder {
      assert Meets(t, cur, parts, n + 1, m);
    }
    if n: nat :| EmptyAt(t, cur, parts, n) {
      assert EmptyAt(t, c, rest, n - 1);
    }
    if n: nat :| EmptyAt(t, c, rest, n) {
      assert EmptyAt(t, cur, parts, n + 1);
    }
  }

  lemma StopsHere(t: Tree, cur: nat, parts: seq<Name>, c: nat)
    requires cur < |t| && |parts| > 1 && parts[0] != [] && ChildNamed(t, t[cur].children, parts[0]) == Some(c)
    requires c < |t| && !FolderAt(t, c)
    ensures Blocked(t, cur, parts) <==> !IsDirectory(t[c].mode)
    ensures Miscast(t, cur, parts) <==> IsDirectory(t[c].mode)
    ensures !Nameless(t, cur, parts)
  {
    FindChild(t, cur, parts, c, 0);
    FindSelf(t, c);
    hide Find, ChildNamed;
    assert Passable(t, cur, parts, 0) && Meets(t, cur, parts, 0, c);
    assert !Opens(t, cur, parts, 0);
    assert forall n: nat :: n > 0 ==> !Passable(t, cur, parts, n);
  }

  /** A path that leads to something already: a file is made, but every path leads where it did. */
  lemma {:induction false} DuplicateHidden(t: Tree, place: seq<seq<Name>>, cur: nat, base: seq<Name>, parts: seq<Name>)
    requires Placed(t, place) && Find(t, 0, base) == Some(cur) && cur < |t| && parts != []
    requires Passable(t, cur, parts, |parts| - 1) && parts[|parts| - 1] != [] && Find(t, cur, parts).Some?
    ensures var r := MakePath(t, cur, parts);
      r.made == Made(|t|) && |r.tree| == |t| + 1 && forall q :: Find(r.tree, 0, q) == Find(t, 0, q)
    decreases |parts|
  {
    var name := parts[0];
    FindSnoc(t, 0, base, name);
    assert [name] + parts[1..] == parts;
    if |parts| == 1 {
      hide Find, Placed, ChildNamed;
      SameTarget(t, cur, base, parts);
      forall q ensures Find(Push(t, cur, File(name)), 0, q) == Find(t, 0, q) {
        PushMakes(t, place, cur, base, File(name), q);
      }
    } else {
      ChildNamedIs(t, t[cur].children, name);
      var c := ChildNamed(t, t[cur].children, name).value;
      assert Opens(t, cur, parts, 0);
      FindChild(t, cur, parts, c, 0);
      FindSelf(t, c);
      PassableChild(t, cur, parts, c, |parts| - 2);
      DuplicateHidden(t, place, c, base + [name], parts[1..]);
    }
  }

  lemma SameTarget(t: Tree, cur: nat, base: seq<Name>, parts: seq<Name>)
    requires Find(t, 0, base) == Some(cur) && |parts| == 1 && Find(t, cur, parts).Some?
    ensures Find(t, 0, base + [parts[0]]).Some?
  {
    FindSnoc(t, 0, base, parts[0]);
    assert parts[1..] == [];
  }
}
