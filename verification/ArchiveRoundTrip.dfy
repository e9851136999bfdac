/** Writing an archive and reading it back: what every path then leads to. */
module ArchiveRoundTrip {
  import opened Common
  import opened Paths
  import opened Inodes
  import opened Cpio

  /** `other` are the eight header fields that the reader does not look at. */
  datatype Record = Record(parts: seq<Name>, mode: nat, other: seq<nat>, data: seq<Byte>)

  // ----- the format

  function Lo(x: nat): Byte { x % 256 }

  function Hi(x: nat): Byte { x / 256 % 256 }

  function Header(mode: nat, o: seq<nat>, nameSize: nat, fileSize: nat): (h: seq<Byte>)
    requires |o| == 8
    ensures |h| == HEADER
  {
    HeaderWords(mode, o, nameSize, fileSize / 0x1_0000, fileSize % 0x1_0000)
  }

  /** The thirteen words of a header, low byte first. */
  function HeaderWords(mode: nat, o: seq<nat>, nameSize: nat, top: nat, low: nat): (h: seq<Byte>)
    requires |o| == 8
    ensures |h| == HEADER
  {
    [Lo(MAGIC), Hi(MAGIC), Lo(o[0]), Hi(o[0]), Lo(o[1]), Hi(o[1]), Lo(mode), Hi(mode),
     Lo(o[2]), Hi(o[2]), Lo(o[3]), Hi(o[3]), Lo(o[4]), Hi(o[4]), Lo(o[5]), Hi(o[5]),
     Lo(o[6]), Hi(o[6]), Lo(o[7]), Hi(o[7]), Lo(nameSize), Hi(nameSize), Lo(top), Hi(top), Lo(low), Hi(low)]
  }

  function Pad(n: nat): seq<Byte> {
    if n % 2 == 0 then [] else [0]
  }

  /** Header, name with its zero byte, data; name and data padded to even length. */
  function EncodeEntry(name: Name, mode: nat, other: seq<nat>, data: seq<Byte>): seq<Byte>
    requires |other| == 8
  {
    Header(mode, other, |name| + 1, |data|) + name + [0] + Pad(|name| + 1) + data + Pad(|data|)
  }

  /** An archive is its records and the trailer. */
  function Encode(rs: seq<Record>): seq<Byte>
    requires forall i :: 0 <= i < |rs| ==> rs[i].parts != [] && |rs[i].other| == 8
  {
    if rs == [] then EncodeEntry(TRAILER, 0, [0, 0, 0, 0, 0, 0, 0, 0], [])
    else EncodeEntry(Join(rs[0].parts), rs[0].mode, rs[0].other, rs[0].data) + Encode(rs[1..])
  }

  /** What the format can carry. */
  predicate Fits(name: Name, mode: nat, data: seq<Byte>) {
    |name| + 1 < 0x1_0000 && mode < 0x1_0000 && |data| < 0x1_0000_0000
  }

  lemma Word(x: nat)
    requires x < 0x1_0000
    ensures (Lo(x) as nat) + 256 * (Hi(x) as nat) == x
  {
  }

  /** The header fields are read as they were written. */
  lemma HeaderFields(name: Name, mode: nat, other: seq<nat>, data: seq<Byte>, rest: seq<Byte>)
    requires |other| == 8 && Fits(name, mode, data)
    ensures var b := Header(mode, other, |name| + 1, |data|) + rest;
      && U16(b, 0) == MAGIC && U16(b, 6) == mode && U16(b, 20) == |name| + 1
      && U16(b, 22) * 0x1_0000 + U16(b, 24) == |data|
  {
    Word(MAGIC);
    Word(mode);
    Word(|name| + 1);
    Word(|data| / 0x1_0000);
    Word(|data| % 0x1_0000);
  }

  lemma Slices(h: seq<Byte>, name: Name, p: seq<Byte>, data: seq<Byte>, q: seq<Byte>, rest: seq<Byte>)
    ensures var b := h + name + [0] + p + data + q + rest;
      && b == h + (name + [0] + p + data + q + rest)
      && b[|h|..|h| + |name|] == name
      && var at := |h| + |name| + 1 + |p|;
         b[at..at + |data|] == data && b[at + |data| + |q|..] == rest
  {
  }

  /** A written record is parsed as itself, whatever follows. */
  lemma ParseEncoded(name: Name, mode: nat, other: seq<nat>, data: seq<Byte>, rest: seq<Byte>)
    requires |other| == 8 && Fits(name, mode, data)
    ensures var e := EncodeEntry(name, mode, other, data);
      && (e + rest)[|e|..] == rest
      && ParseEntry(e + rest) == if name == TRAILER then End else Entry(name, mode, data, |e|)
  {
    hide Header, U16, Pad;
    var h, p, q := Header(mode, other, |name| + 1, |data|), Pad(|name| + 1), Pad(|data|);
    var tail := name + [0] + p + data + q + rest;
    HeaderFields(name, mode, other, data, tail);
    Slices(h, name, p, data, q, rest);
    PadSize(|name| + 1);
    PadSize(|data|);
    assert EncodeEntry(name, mode, other, data) + rest == h + tail;
  }

  /** The bytes are those of a record: its header, its name and its data in their places. Padding and
      the zero byte after the name may be anything. */
  predicate Carries(bytes: seq<Byte>, name: Name, mode: nat, other: seq<nat>, data: seq<Byte>) {
    var at := HEADER + |name| + 1 + (|name| + 1) % 2;
    && |other| == 8 && |bytes| >= HEADER + |name| + 1 && bytes[..HEADER] == Header(mode, other, |name| + 1, |data|)
    && bytes[HEADER..HEADER + |name|] == name
    && (name != TRAILER ==> |bytes| >= at + |data| && bytes[at..at + |data|] == data)
  }

  function FieldsOf(bytes: seq<Byte>): (fields: seq<nat>)
    requires |bytes| >= HEADER
    ensures |fields| == 8
  {
    [U16(bytes, 2), U16(bytes, 4), U16(bytes, 8), U16(bytes, 10), U16(bytes, 12), U16(bytes, 14), U16(bytes, 16),
     U16(bytes, 18)]
  }

  lemma BytesOf(bytes: seq<Byte>, at: nat)
    requires at + 1 < |bytes|
    ensures Lo(U16(bytes, at)) == bytes[at] && Hi(U16(bytes, at)) == bytes[at + 1] && U16(bytes, at) < 0x1_0000
  {
    var lo, hi := bytes[at] as nat, bytes[at + 1] as nat;
    assert U16(bytes, at) == 256 * hi + lo;
    ByteParts(U16(bytes, at), hi, lo);
  }

  lemma ByteParts(x: nat, hi: nat, lo: nat)
    requires x == 256 * hi + lo && lo < 256 && hi < 256
    ensures x % 256 == lo && x / 256 % 256 == hi
  {
    assert x / 256 == hi;
  }

  lemma HalvesOf(x: nat, top: nat, low: nat)
    requires x == top * 0x1_0000 + low && low < 0x1_0000
    ensures x / 0x1_0000 == top && x % 0x1_0000 == low
  {
  }

  /** The header is determined by the fields that stand in it. */
  lemma HeaderIs(bytes: seq<Byte>, fileSize: nat)
    requires |bytes| >= HEADER && U16(bytes, 0) == MAGIC && fileSize == U16(bytes, 22) * 0x1_0000 + U16(bytes, 24)
    ensures bytes[..HEADER] == Header(U16(bytes, 6), FieldsOf(bytes), U16(bytes, 20), fileSize)
  {
    hide U16, Lo, Hi, HeaderWords;
    BytesOf(bytes, 24);
    HalvesOf(fileSize, U16(bytes, 22), U16(bytes, 24));
    WordsAre(bytes);
  }

  /** The words of a header in their order. */
  function WordsOf(mode: nat, o: seq<nat>, nameSize: nat, top: nat, low: nat): (w: seq<nat>)
    requires |o| == 8
    ensures |w| == 13
  {
    [MAGIC, o[0], o[1], mode, o[2], o[3], o[4], o[5], o[6], o[7], nameSize, top, low]
  }

  lemma HeaderAt(mode: nat, o: seq<nat>, nameSize: nat, top: nat, low: nat, i: nat)
    requires |o| == 8 && i < 13
    ensures var h, w := HeaderWords(mode, o, nameSize, top, low), WordsOf(mode, o, nameSize, top, low);
      h[2 * i] == Lo(w[i]) && h[2 * i + 1] == Hi(w[i])
  {
    hide Lo, Hi;
  }

  lemma WordAt(bytes: seq<Byte>, i: nat)
    requires |bytes| >= HEADER && U16(bytes, 0) == MAGIC && i < 13
    ensures U16(bytes, 2 * i) ==
      WordsOf(U16(bytes, 6), FieldsOf(bytes), U16(bytes, 20), U16(bytes, 22), U16(bytes, 24))[i]
  {
    hide U16;
  }

  lemma WordsAre(bytes: seq<Byte>)
    requires |bytes| >= HEADER && U16(bytes, 0) == MAGIC
    ensures bytes[..HEADER] ==
      HeaderWords(U16(bytes, 6), FieldsOf(bytes), U16(bytes, 20), U16(bytes, 22), U16(bytes, 24))
  {
    hide U16, Lo, Hi, HeaderWords, WordsOf, FieldsOf;
    var h := HeaderWords(U16(bytes, 6), FieldsOf(bytes), U16(bytes, 20), U16(bytes, 22), U16(bytes, 24));
    forall k | 0 <= k < HEADER ensures bytes[k] == h[k] {
      var i := k / 2;
      BytesOf(bytes, 2 * i);
      WordAt(bytes, i);
      HeaderAt(U16(bytes, 6), FieldsOf(bytes), U16(bytes, 20), U16(bytes, 22), U16(bytes, 24), i);
    }
  }

  /** Whatever is parsed as a record, or as the trailer, stands there as one: the reader accepts
      nothing else, and goes on after its padding. */
  lemma ParsedIsThere(bytes: seq<Byte>)
    requires ParseEntry(bytes).Entry? || ParseEntry(bytes).End?
    ensures match ParseEntry(bytes)
      case Entry(name, mode, data, next) =>
        && name != TRAILER && (exists other :: Carries(bytes, name, mode, other, data))
        && next == HEADER + |name| + 1 + (|name| + 1) % 2 + |data| + |data| % 2
      case End => exists mode, other, data :: Carries(bytes, TRAILER, mode, other, data)
      case Bad(_) => true
  {
    hide Header, U16;
    var nameSize, fileSize := U16(bytes, 20), U16(bytes, 22) * 0x1_0000 + U16(bytes, 24);
    HeaderIs(bytes, fileSize);
    if ParseEntry(bytes).End? {
      var data: seq<Byte> := seq(fileSize, _ => 0);
      assert Carries(bytes, TRAILER, U16(bytes, 6), FieldsOf(bytes), data);
    } else {
      var p := ParseEntry(bytes);
      assert Carries(bytes, p.name, p.mode, FieldsOf(bytes), p.data);
    }
  }

  /** And what is refused is refused for its reason: another magic number, a name without even its
      zero byte, or fewer bytes than the sizes in the header ask for. */
  lemma ParseFails(bytes: seq<Byte>)
    ensures ParseEntry(bytes) == Bad(BadMagic) <==>
      |bytes| >= 26 && !(bytes[0] == 0xC7 && bytes[1] == 0x71)
    ensures ParseEntry(bytes) == Bad(BadNameSize) <==>
      |bytes| >= 26 && bytes[0] == 0xC7 && bytes[1] == 0x71 && bytes[20] == 0 == bytes[21]
    ensures ParseEntry(bytes) == Bad(Truncated) <==> |bytes| < 26 || TooShort(bytes)
    ensures ParseEntry(bytes).Bad? ==> ParseEntry(bytes).outcome in {BadMagic, BadNameSize, Truncated}
  {
    if |bytes| >= 26 {
      assert U16(bytes, 0) == MAGIC <==> bytes[0] == 0xC7 && bytes[1] == 0x71;
      assert U16(bytes, 20) == 0 <==> bytes[20] == 0 == bytes[21];
    }
  }

  predicate TooShort(bytes: seq<Byte>)
    requires |bytes| >= 26
  {
    var nameSize: nat := bytes[20] as nat + bytes[21] as nat * 0x100;
    var high: nat, low: nat := bytes[22] as nat + bytes[23] as nat * 0x100, bytes[24] as nat + bytes[25] as nat * 0x100;
    var fileSize := high * 0x1_0000 + low;
    && bytes[0] == 0xC7 && bytes[1] == 0x71 && nameSize > 0
    && (|bytes| < 26 + nameSize
        || (bytes[26..26 + nameSize - 1] != TRAILER && |bytes| < 26 + nameSize + nameSize % 2 + fileSize))
  }

  /** What reading does with one record: a file is made and filled, a record whose path leads through
      a file is passed over, and the two failed assertions end it. */
  lemma RecordRead(t: Tree, name: Name, mode: nat, other: seq<nat>, data: seq<Byte>, rest: seq<Byte>)
    requires |other| == 8 && Fits(name, mode, data) && name != TRAILER
    ensures var bytes := EncodeEntry(name, mode, other, data) + rest;
      var r := MakePath(t, 0, Split(CString(name)));
      ReadAll(bytes, t) ==
        match r.made
        case Made(id) => ReadAll(rest, SetContents(r.tree, id, mode, data))
        case NotADirectory => ReadAll(rest, r.tree)
        case EmptyName => Reading(r.tree, Failed(EmptyName))
        case CastFile => Reading(r.tree, Failed(CastFile))
  {
    hide EncodeEntry, ParseEntry, MakePath, Split, CString;
    ParseEncoded(name, mode, other, data, rest);
  }

  lemma PadSize(n: nat)
    ensures |Pad(n)| == n % 2
  {
  }

  // ----- the tree

  /** A record of a file: proper components, small enough, not a directory, not the trailer. */
  predicate Good(r: Record) {
    && Proper(r.parts) && |r.other| == 8 && Fits(Join(r.parts), r.mode, r.data)
    && Join(r.parts) != TRAILER && !IsDirectory(r.mode)
  }

  /** No path is another one, or leads through another one. */
  ghost predicate PrefixFree(rs: seq<Record>) {
    forall i, j :: 0 <= i < |rs| && 0 <= j < |rs| && i != j ==> !(rs[i].parts <= rs[j].parts)
  }

  predicate Holds(t: Tree, id: nat, r: Record) {
    id < |t| && !t[id].folder && t[id].mode == r.mode && t[id].size == |r.data| && t[id].data == r.data
  }

  predicate Stored(t: Tree, r: Record) {
    var m := Find(t, 0, r.parts);
    m.Some? && Holds(t, m.value, r)
  }

  predicate IsFolder(t: Tree, id: nat) {
    id < |t| && t[id].folder && IsDirectory(t[id].mode)
  }

  ghost predicate OnTheWay(rs: seq<Record>, q: seq<Name>) {
    exists j :: 0 <= j < |rs| && q <= rs[j].parts
  }

  ghost predicate IsRecord(rs: seq<Record>, q: seq<Name>) {
    exists j :: 0 <= j < |rs| && q == rs[j].parts
  }

  /** The tree holds the records, the folders on their way, and nothing else. */
  ghost predicate TreeOf(t: Tree, rs: seq<Record>) {
    && (forall j :: 0 <= j < |rs| ==> Stored(t, rs[j]))
    && (forall q :: q != [] && Find(t, 0, q).Some? ==>
         OnTheWay(rs, q) && (IsRecord(rs, q) || IsFolder(t, Find(t, 0, q).value)))
  }

  lemma {:induction false} SetKeepsChild(t: Tree, id: nat, mode: nat, data: seq<Byte>, children: seq<nat>, name: Name)
    ensures ChildNamed(SetContents(t, id, mode, data), children, name) == ChildNamed(t, children, name)
    decreases |children|
  {
    if children != [] {
      SetKeepsChild(t, id, mode, data, children[1..], name);
    }
  }

  lemma {:induction false} SetKeepsFind(t: Tree, id: nat, mode: nat, data: seq<Byte>, n: nat, q: seq<Name>)
    ensures Find(SetContents(t, id, mode, data), n, q) == Find(t, n, q)
    decreases |q|
  {
    if q != [] && n < |t| {
      SetKeepsChild(t, id, mode, data, t[n].children, q[0]);
      match ChildNamed(t, t[n].children, q[0])
      case None =>
      case Some(c) => SetKeepsFind(t, id, mode, data, c, q[1..]);
    }
  }

  lemma SetKeepsPlaced(t: Tree, place: seq<seq<Name>>, id: nat, mode: nat, data: seq<Byte>)
    requires Placed(t, place)
    ensures Placed(SetContents(t, id, mode, data), place)
  {
    var t' := SetContents(t, id, mode, data);
    forall n, j | 0 <= n < |t'| && 0 <= j < |t'[n].children| ensures ChildPlaced(t', place, n, t'[n].children[j]) {
      assert ChildPlaced(t, place, n, t[n].children[j]);
    }
  }

  /** Nothing stands in the way of a record that is free of the earlier ones. */
  lemma WayIsFree(t: Tree, rs: seq<Record>, r: Record)
    requires TreeOf(t, rs) && r.parts != [] && PrefixFree(rs + [r])
    ensures WayFree(t, r.parts)
  {
    hide Find;
    var all := rs + [r];
    forall j | 0 <= j < |rs| ensures !(rs[j].parts <= r.parts) && !(r.parts <= rs[j].parts) {
      assert !(all[j].parts <= all[|rs|].parts) && !(all[|rs|].parts <= all[j].parts);
    }
    forall q | q < r.parts && q != [] && Find(t, 0, q).Some?
      ensures var m := Find(t, 0, q).value; m < |t| && t[m].folder && IsDirectory(t[m].mode)
    {
      assert !IsRecord(rs, q);
    }
  }

  /** The tree after one more record. */
  lemma StillStored(t: Tree, t1: Tree, t': Tree, rs: seq<Record>, r: Record, id: nat)
    requires TreeOf(t, rs) && MadeFile(t, t1, r.parts, id) && t' == SetContents(t1, id, r.mode, r.data)
    requires forall q :: Find(t', 0, q) == Find(t1, 0, q)
    ensures TreeOf(t', rs + [r])
  {
    hide Find, MadeFile, SetContents, Stored, OnTheWay, IsRecord, IsFolder;
    var all := rs + [r];
    forall j | 0 <= j < |all| ensures Stored(t', all[j]) {
      RecordStored(t, t1, t', rs, r, id, j);
    }
    forall q | q != [] && Find(t', 0, q).Some?
      ensures OnTheWay(all, q) && (IsRecord(all, q) || IsFolder(t', Find(t', 0, q).value))
    {
      PathStored(t, t1, t', rs, r, id, q);
    }
  }

  lemma RecordStored(t: Tree, t1: Tree, t': Tree, rs: seq<Record>, r: Record, id: nat, j: nat)
    requires TreeOf(t, rs) && MadeFile(t, t1, r.parts, id) && t' == SetContents(t1, id, r.mode, r.data)
    requires forall q :: Find(t', 0, q) == Find(t1, 0, q)
    requires j <= |rs|
    ensures Stored(t', (rs + [r])[j])
  {
    hide Find, OnTheWay, IsRecord, IsFolder, NewInode;
    if j < |rs| {
      assert Stored(t, rs[j]);
      var m := Find(t, 0, rs[j].parts).value;
      assert SameBut(t1[m], t[m]);
    }
  }

  lemma PathStored(t: Tree, t1: Tree, t': Tree, rs: seq<Record>, r: Record, id: nat, q: seq<Name>)
    requires TreeOf(t, rs) && MadeFile(t, t1, r.parts, id) && t' == SetContents(t1, id, r.mode, r.data)
    requires Find(t', 0, q) == Find(t1, 0, q) && q != [] && Find(t', 0, q).Some?
    ensures OnTheWay(rs + [r], q) && (IsRecord(rs + [r], q) || IsFolder(t', Find(t', 0, q).value))
  {
    hide Find, Stored, TreeOf;
    assert (rs + [r])[|rs|] == r;
    var m := Find(t', 0, q).value;
    if Find(t, 0, q).Some? {
      OldPath(t, rs, r, q);
      assert m < |t| && SameBut(t1[m], t[m]);
    } else if q != r.parts {
      assert NewInode(t, t1, r.parts, q, m);
    }
  }

  lemma OldPath(t: Tree, rs: seq<Record>, r: Record, q: seq<Name>)
    requires TreeOf(t, rs) && q != [] && Find(t, 0, q).Some?
    ensures OnTheWay(rs + [r], q) && (IsRecord(rs + [r], q) || IsFolder(t, Find(t, 0, q).value))
  {
    hide Find, Stored;
    var j :| 0 <= j < |rs| && q <= rs[j].parts;
    assert (rs + [r])[j] == rs[j];
    if IsRecord(rs, q) {
      var i :| 0 <= i < |rs| && q == rs[i].parts;
      assert (rs + [r])[i] == rs[i];
    }
  }

  /** Reading one record into a tree that has no place taken on its way. */
  lemma AddOne(t: Tree, place: seq<seq<Name>>, rs: seq<Record>, r: Record) returns (place': seq<seq<Name>>)
    requires Placed(t, place) && TreeOf(t, rs) && Good(r) && PrefixFree(rs + [r])
    ensures var m := AddRecord(t, CString(Join(r.parts)), r.mode, r.data);
      m.made.Made? && TreeOf(m.tree, rs + [r]) && Placed(m.tree, place')
  {
    hide Find, Placed, MakePath, TreeOf, WayFree, MadeFile, PrefixFree, Join, Split;
    JoinHasNoNul(r.parts);
    SplitJoin(r.parts);
    WayIsFree(t, rs, r);
    FindRoot(t, place);
    assert [] + r.parts == r.parts;
    place' := MakePathMakes(t, place, 0, [], r.parts);
    var made := MakePath(t, 0, r.parts);
    var id := made.made.id;
    var t' := SetContents(made.tree, id, r.mode, r.data);
    forall q ensures Find(t', 0, q) == Find(made.tree, 0, q) {
      SetKeepsFind(made.tree, id, r.mode, r.data, 0, q);
    }
    SetKeepsPlaced(made.tree, place', id, r.mode, r.data);
    StillStored(t, made.tree, t', rs, r, id);
  }

  lemma FindRoot(t: Tree, place: seq<seq<Name>>)
    requires Placed(t, place)
    ensures Find(t, 0, []) == Some(0) && 0 < |t|
  {
  }

  ghost predicate AllGood(rs: seq<Record>) {
    forall i :: 0 <= i < |rs| ==> Good(rs[i])
  }

  /** Reading the rest of an archive into the tree of the records before. */
  lemma {:induction false} ReadRest(t: Tree, place: seq<seq<Name>>, before: seq<Record>, rs: seq<Record>,
                                    tail: seq<Byte>)
    requires Placed(t, place) && TreeOf(t, before) && AllGood(rs) && PrefixFree(before + rs)
    ensures var read := ReadAll(Encode(rs) + tail, t);
      read.outcome == Done && TreeOf(read.tree, before + rs) && read.tree != []
    decreases |rs|
  {
    hide Find, Placed, TreeOf, AddRecord, ParseEntry, Fits, Join, CString, EncodeEntry;
    if rs == [] {
      ParseEncoded(TRAILER, 0, [0, 0, 0, 0, 0, 0, 0, 0], [], tail) by { FitsTrailer(); }
      assert before + rs == before;
      FindRoot(t, place);
    } else {
      var r := rs[0];
      assert before + [r] + rs[1..] == before + rs;
      assert Good(r);
      FreePrefix(before + [r], rs[1..]);
      var place' := AddOne(t, place, before, r);
      var e := EncodeEntry(Join(r.parts), r.mode, r.other, r.data);
      assert Encode(rs) + tail == e + (Encode(rs[1..]) + tail);
      ParseEncoded(Join(r.parts), r.mode, r.other, r.data, Encode(rs[1..]) + tail);
      RestGood(rs);
      ReadRest(AddRecord(t, CString(Join(r.parts)), r.mode, r.data).tree, place', before + [r], rs[1..], tail);
    }
  }

  lemma RestGood(rs: seq<Record>)
    requires rs != [] && AllGood(rs)
    ensures AllGood(rs[1..])
  {
  }

  lemma FitsTrailer()
    ensures Fits(TRAILER, 0, [])
  {
  }

  lemma FreePrefix(a: seq<Record>, b: seq<Record>)
    requires PrefixFree(a + b)
    ensures PrefixFree(a)
  {
    forall i, j | 0 <= i < |a| && 0 <= j < |a| && i != j ensures !(a[i].parts <= a[j].parts) {
      assert (a + b)[i] == a[i] && (a + b)[j] == a[j];
    }
  }

  /** The archive round trip. Every record is found under its absolute path, with its bytes,
      size and mode. An absolute path leads somewhere exactly when it is a record or a
      directory on the way to one, and then it leads to that. */
  lemma RoundTrip(rs: seq<Record>, tail: seq<Byte>)
    requires AllGood(rs) && PrefixFree(rs)
    ensures var read := ReadAll(Encode(rs) + tail, EMPTY);
      && read.outcome == Done
      && (forall i :: 0 <= i < |rs| ==> Reads(read.tree, rs[i]))
      && (forall path :: LeadsRight(read.tree, rs, path))
      && (forall path, i :: 0 <= i < |rs| && IsSpelling(path, rs[i].parts) ==> Reaches(read.tree, path, rs[i]))
  {
    hide IsSpelling, Reaches, TreeOf, ReadAll, Encode, Reads, LeadsRight, PrefixFree;
    EmptyTree();
    assert [] + rs == rs;
    ReadRest(EMPTY, [[]], [], rs, tail);
    var t := ReadAll(Encode(rs) + tail, EMPTY).tree;
    forall i | 0 <= i < |rs| ensures Reads(t, rs[i]) {
      ReadsBack(t, rs, i);
    }
    forall path ensures LeadsRight(t, rs, path) {
      PathLeads(t, rs, path);
    }
    forall path, i | 0 <= i < |rs| && IsSpelling(path, rs[i].parts) ensures Reaches(t, path, rs[i]) {
      SpellingLeads(t, rs, path, i);
    }
  }

  /** An absolute path that spells `parts`, with as many slashes between them as it likes. */
  predicate IsSpelling(path: Name, parts: seq<Name>) {
    path != [] && path[0] == SLASH && 0 !in path && Spells(path[1..], parts)
  }

  predicate Reaches(t: Tree, path: Name, r: Record) {
    Leads(t, path) && Holds(t, LookupPath(t, path).id, r)
  }

  lemma SpellingLeads(t: Tree, rs: seq<Record>, path: Name, i: nat)
    requires i < |rs| && IsSpelling(path, rs[i].parts) && LeadsRight(t, rs, path)
    ensures Reaches(t, path, rs[i])
  {
    hide LookupPath, Spells, NonEmpty, Split;
    MergedSpells(path[1..], rs[i].parts);
    assert Asked(path) == rs[i].parts;
  }

  lemma ReadsBack(t: Tree, rs: seq<Record>, i: nat)
    requires TreeOf(t, rs) && AllGood(rs) && i < |rs|
    ensures Reads(t, rs[i])
  {
    hide Find, Split, NonEmpty, CString, Join;
    assert Stored(t, rs[i]);
    PathAsks(rs[i].parts);
  }

  lemma PathLeads(t: Tree, rs: seq<Record>, path: Name)
    requires TreeOf(t, rs) && t != []
    ensures LeadsRight(t, rs, path)
  {
    hide Split, NonEmpty, CString;
    if OnTheWay(rs, Asked(path)) {
      var j :| 0 <= j < |rs| && Asked(path) <= rs[j].parts;
      assert Stored(t, rs[j]);
      FindPrefix(t, 0, Asked(path), rs[j].parts);
    }
    forall j | 0 <= j < |rs| && Asked(path) == rs[j].parts ensures Stored(t, rs[j]) {
    }
  }

  lemma {:induction false} FindPrefix(t: Tree, n: nat, q: seq<Name>, parts: seq<Name>)
    requires q <= parts && Find(t, n, parts).Some?
    ensures Find(t, n, q).Some?
    decreases |q|
  {
    if q != [] {
      FindPrefix(t, ChildNamed(t, t[n].children, q[0]).value, q[1..], parts[1..]);
    }
  }

  /** Where an absolute path leads. */
  ghost predicate LeadsRight(t: Tree, rs: seq<Record>, path: Name) {
    path != [] && path[0] == SLASH ==>
      && (Leads(t, path) <==> Asked(path) == [] || OnTheWay(rs, Asked(path)))
      && (Leads(t, path) && Asked(path) != [] && !IsRecord(rs, Asked(path)) ==> IsFolder(t, LookupPath(t, path).id))
      && (forall j :: 0 <= j < |rs| && Asked(path) == rs[j].parts ==>
           Leads(t, path) && Holds(t, LookupPath(t, path).id, rs[j]))
  }

  /** The components that a lookup of `path` asks for. */
  function Asked(path: Name): seq<Name> {
    if path == [] then [] else NonEmpty(Split(CString(path[1..])))
  }

  predicate Leads(t: Tree, path: Name) {
    LookupPath(t, path).Found?
  }

  predicate Reads(t: Tree, r: Record) {
    r.parts != [] &&
    var found := LookupPath(t, [SLASH] + Join(r.parts));
    found.Found? && Holds(t, found.id, r)
  }

  lemma PathAsks(parts: seq<Name>)
    requires Proper(parts)
    ensures Asked([SLASH] + Join(parts)) == parts && NonEmpty(Split(CString(([SLASH] + Join(parts))[1..]))) == parts
  {
    assert ([SLASH] + Join(parts))[1..] == Join(parts);
    JoinHasNoNul(parts);
    SplitJoin(parts);
    NonEmptyAll(parts);
  }

  lemma EmptyTree()
    ensures Placed(EMPTY, [[]]) && TreeOf(EMPTY, [])
  {
    forall q | q != [] ensures Find(EMPTY, 0, q).None? {
      assert ChildNamed(EMPTY, [], q[0]) == None;
    }
  }
}
