/** The archive reader of source/Cpio.cpp and the path lookup of source/Fs.cpp, over the "Old
    Binary Format" of cpio(5). */
module Cpio {
  import opened Common
  import opened Paths
  import opened Inodes

  const MAGIC: nat := 0x71C7                    // octal 070707
  const HEADER: nat := 26
  const TRAILER: Name := [84, 82, 65, 73, 76, 69, 82, 33, 33, 33]   // "TRAILER!!!"

  /** `Truncated` stands for reading past the end of the data, `BadNameSize` for a name size of
      zero, `Failed` for an assertion of `makeFile`. */
  datatype Outcome = Done | BadMagic | Truncated | BadNameSize | Failed(made: Made)

  datatype Reading = Reading(tree: Tree, outcome: Outcome)

  function U16(b: seq<Byte>, at: nat): nat
    requires at + 1 < |b|
  {
    (b[at] as nat) + 256 * (b[at + 1] as nat)
  }

  function SetContents(t: Tree, id: nat, mode: nat, data: seq<Byte>): Tree {
    if id < |t| then t[id := t[id].(mode := mode, size := |data|, data := data)] else t
  }

  /** One record: what becomes of the tree. */
  function AddRecord(t: Tree, path: Name, mode: nat, data: seq<Byte>): Making {
    var r := MakePath(t, 0, Split(path));
    match r.made
    case Made(id) => Making(SetContents(r.tree, id, mode, data), r.made)
    case _ => r
  }

  /** What stands at the front: the end of the archive, an error, or a record and how far it
      reaches. */
  datatype Parsed = End | Bad(outcome: Outcome) | Entry(name: Name, mode: nat, data: seq<Byte>, next: nat)

  function ParseEntry(bytes: seq<Byte>): (p: Parsed)
    ensures p.Entry? ==> p.next > 0
  {
    if |bytes| < HEADER then Bad(Truncated)
    else if U16(bytes, 0) != MAGIC then Bad(BadMagic)
    else
      var nameSize, fileSize := U16(bytes, 20), U16(bytes, 22) * 0x1_0000 + U16(bytes, 24);
      if nameSize == 0 then Bad(BadNameSize)
      else if |bytes| < HEADER + nameSize then Bad(Truncated)
      else
        var name := bytes[HEADER..HEADER + nameSize - 1];
        if name == TRAILER then End
        else
          var at := HEADER + nameSize + nameSize % 2;
          if |bytes| < at + fileSize then Bad(Truncated)
          else Entry(name, U16(bytes, 6), bytes[at..at + fileSize], at + fileSize + fileSize % 2)
  }

  /** The whole archive, from the front. */
  function ReadAll(bytes: seq<Byte>, t: Tree): Reading
    decreases |bytes|
  {
    match ParseEntry(bytes)
    case End => Reading(t, Done)
    case Bad(outcome) => Reading(t, outcome)
    case Entry(name, mode, data, next) =>
      var r := AddRecord(t, CString(name), mode, data);
      if r.made == EmptyName || r.made == CastFile then Reading(r.tree, Failed(r.made))
      else if |bytes| < next then Reading(r.tree, Truncated)
      else ReadAll(bytes[next..], r.tree)
  }

  /** Parsing in the middle of the data, as the source does with its pointer. */
  method ParseAt(data: seq<Byte>, ptr: nat) returns (p: Parsed)
    requires ptr <= |data|
    ensures p == ParseEntry(data[ptr..])
  {
    ghost var rest := data[ptr..];
    if |data| < ptr + HEADER {
      return Bad(Truncated);
    }
    FieldsAt(data, ptr);
    if U16(data, ptr) != MAGIC {
      return Bad(BadMagic);
    }
    var nameSize, fileSize := U16(data, ptr + 20), U16(data, ptr + 22) * 0x1_0000 + U16(data, ptr + 24);
    if nameSize == 0 {
      return Bad(BadNameSize);
    }
    if |data| < ptr + HEADER + nameSize {
      return Bad(Truncated);
    }
    var name := data[ptr + HEADER..ptr + HEADER + nameSize - 1];
    assert name == rest[HEADER..HEADER + nameSize - 1];
    if name == TRAILER {
      return End;
    }
    var at := HEADER + nameSize + nameSize % 2;
    if |data| < ptr + at + fileSize {
      return Bad(Truncated);
    }
    assert data[ptr + at..ptr + at + fileSize] == rest[at..at + fileSize];
    p := Entry(name, U16(data, ptr + 6), data[ptr + at..ptr + at + fileSize], at + fileSize + fileSize % 2);
  }

  datatype Looked = Found(id: nat) | NotFound | InvalidPath

  /** Lookup of an absolute path without following a link at its end. */
  function LookupPath(t: Tree, path: Name): Looked {
    if path == [] || path[0] != SLASH then InvalidPath
    else match Find(t, 0, NonEmpty(Split(CString(path[1..]))))
         case Some(id) => Found(id)
         case None => NotFound
  }

  class CpioFs {
    var tree: Tree

    constructor ()
      ensures tree == EMPTY
    {
      tree := EMPTY;
    }

    /** `makeFile`: one pass over the characters of the path. */
    method MakeFile(path: Name) returns (made: Made)
      requires tree != []
      modifies this
      ensures Making(tree, made) == MakePath(old(tree), 0, Split(path)) && tree != []
    {
      hide Split;
      ghost var goal := MakePath(tree, 0, Split(path));
      var cur: nat, start: nat := 0, 0;
      assert path[0..] == path;
      for p := 0 to |path|
        invariant start <= p && SLASH !in path[start..p] && cur < |tree|
        invariant MakePath(tree, cur, Split(path[start..])) == goal
      {
        if path[p] == SLASH {
          ComponentAt(path, start, p);
          if start == p {
            return EmptyName;
          }
          var name := path[start..p];
          ChildNamedIs(tree, tree[cur].children, name);
          match ChildNamed(tree, tree[cur].children, name) {
            case Some(c) =>
              if !IsDirectory(tree[c].mode) {
                return NotADirectory;
              }
              if !tree[c].folder {
                return CastFile;
              }
              cur := c;
            case None =>
              tree, cur := Push(tree, cur, Folder(name)), |tree|;
          }
          start := p + 1;
        } else {
          NoSlashYet(path, start, p);
        }
      }
      LastComponent(path[start..]);
      if start == |path| {
        return EmptyName;
      }
      made := Made(|tree|);
      tree := Push(tree, cur, File(path[start..]));
    }

    /** `readArchive`: record after record, until the trailer. */
    method ReadArchive(data: seq<Byte>) returns (outcome: Outcome)
      requires tree != []
      modifies this
      ensures Reading(tree, outcome) == ReadAll(data, old(tree))
    {
      hide MakePath, Split, CString, ParseEntry;
      var ptr: nat := 0;
      assert data[0..] == data;
      while true
        invariant ptr <= |data| && tree != [] && ReadAll(data[ptr..], tree) == ReadAll(data, old(tree))
        decreases |data| - ptr
      {
        var p := ParseAt(data, ptr);
        if p.End? {
          return Done;
        }
        if p.Bad? {
          return p.outcome;
        }
        var made := MakeFile(CString(p.name));
        if made.Made? {
          tree := SetContents(tree, made.id, p.mode, p.data);
        } else if made != NotADirectory {
          return Failed(made);
        }
        if |data| < ptr + p.next {
          return Truncated;
        }
        assert data[ptr..][p.next..] == data[ptr + p.next..];
        ptr := ptr + p.next;
      }
    }

    /** `lookup` of an absolute path, the link at the end of it not followed. */
    method Lookup(path: Name) returns (r: Looked)
      requires tree != []
      ensures r == LookupPath(tree, path)
      ensures r == InvalidPath <==> path == [] || path[0] != SLASH
    {
      hide Split, NonEmpty, CString;
      if path == [] || path[0] != SLASH {
        return InvalidPath;
      }
      var parts := SplitPath(CString(path[1..]), true);
      var cur: nat := 0;
      assert parts[0..] == parts;
      for i := 0 to |parts|
        invariant cur < |tree| && Find(tree, cur, parts[i..]) == Find(tree, 0, parts)
      {
        assert parts[i..][1..] == parts[i + 1..];
        ChildNamedIs(tree, tree[cur].children, parts[i]);
        match ChildNamed(tree, tree[cur].children, parts[i]) {
          case None => return NotFound;
          case Some(c) => cur := c;
        }
      }
      r := Found(cur);
    }
  }

  lemma FieldsAt(data: seq<Byte>, ptr: nat)
    requires ptr + HEADER <= |data|
    ensures var rest := data[ptr..];
      && U16(rest, 0) == U16(data, ptr) && U16(rest, 6) == U16(data, ptr + 6) && U16(rest, 20) == U16(data, ptr + 20)
      && U16(rest, 22) == U16(data, ptr + 22) && U16(rest, 24) == U16(data, ptr + 24)
  {
  }

  lemma ComponentAt(path: Name, start: nat, p: nat)
    requires start <= p < |path| && path[p] == SLASH && SLASH !in path[start..p]
    ensures var parts := Split(path[start..]);
      |parts| > 1 && parts[0] == path[start..p] && parts[1..] == Split(path[p + 1..])
  {
    var rest := path[start..];
    assert rest[..p - start] == path[start..p] && rest[p - start + 1..] == path[p + 1..];
    SplitAt(rest, p - start);
  }

  lemma LastComponent(rest: Name)
    requires SLASH !in rest
    ensures Split(rest) == [rest]
  {
  }
}
