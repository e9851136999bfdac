/** Paths as byte strings: the splitter of source/Fs.cpp, and the component-wise reading of a
    path in source/Cpio.cpp. */
module Paths {

  type Byte = x: nat | x < 256
  type Name = seq<Byte>

  const SLASH: Byte := 47

  /** The components between slashes, empty ones included; there is always at least one. */
  function Split(path: Name): (parts: seq<Name>)
    ensures parts != []
    decreases |path|
  {
    if SLASH !in path then [path]
    else var i := FirstSlash(path); [path[..i]] + Split(path[i + 1..])
  }

  function FirstSlash(path: Name): (i: nat)
    requires SLASH in path
    ensures i < |path| && path[i] == SLASH && SLASH !in path[..i]
  {
    if path[0] == SLASH then 0 else
      var i := FirstSlash(path[1..]);
      assert path[..i + 1] == [path[0]] + path[1..][..i];
      i + 1
  }

  function NonEmpty(parts: seq<Name>): seq<Name> {
    if parts == [] then [] else (if parts[0] == [] then [] else [parts[0]]) + NonEmpty(parts[1..])
  }

  function Join(parts: seq<Name>): Name
    requires parts != []
  {
    if |parts| == 1 then parts[0] else parts[0] + [SLASH] + Join(parts[1..])
  }

  /** Components as they can stand between two slashes. */
  predicate Proper(parts: seq<Name>) {
    parts != [] && forall i :: 0 <= i < |parts| ==> parts[i] != [] && SLASH !in parts[i] && 0 !in parts[i]
  }

  /** The first slash at `i` splits off the first component. */
  lemma SplitAt(path: Name, i: nat)
    requires i < |path| && path[i] == SLASH && SLASH !in path[..i]
    ensures Split(path) == [path[..i]] + Split(path[i + 1..])
  {
    assert FirstSlash(path) == i;
  }

  /** Splitting undoes joining. */
  lemma {:induction false} SplitJoin(parts: seq<Name>)
    requires Proper(parts)
    ensures Split(Join(parts)) == parts
    decreases |parts|
  {
    if |parts| > 1 {
      var path, n := Join(parts), |parts[0]|;
      assert path[..n] == parts[0] && path[n] == SLASH && path[n + 1..] == Join(parts[1..]);
      SplitAt(path, n);
      SplitJoin(parts[1..]);
    }
  }

  /** No component has a slash in it. */
  predicate SlashFree(parts: seq<Name>) {
    forall i :: 0 <= i < |parts| ==> SLASH !in parts[i]
  }

  /** Joining undoes splitting, whatever the path: every slash ends a component, also an empty one. */
  lemma {:induction false} JoinSplit(path: Name)
    ensures Join(Split(path)) == path && SlashFree(Split(path))
    decreases |path|
  {
    if SLASH in path {
      var i := FirstSlash(path);
      JoinSplit(path[i + 1..]);
      assert Split(path)[1..] == Split(path[i + 1..]);
      assert path == path[..i] + [SLASH] + path[i + 1..];
    }
  }

  /** Reading `path` from the left gives `parts`: slashes are passed over, anything else is a
      component up to the next slash or the end. */
  predicate Spells(path: Name, parts: seq<Name>)
    decreases |path|
  {
    if path == [] then parts == []
    else if path[0] == SLASH then Spells(path[1..], parts)
    else
      && parts != [] && parts[0] != [] && SLASH !in parts[0] && parts[0] <= path
      && (|parts[0]| < |path| ==> path[|parts[0]|] == SLASH)
      && Spells(path[|parts[0]|..], parts[1..])
  }

  /** The components without the empty ones are what the path spells, and it spells nothing else. */
  lemma {:induction false} MergedSpells(path: Name, parts: seq<Name>)
    ensures Spells(path, parts) <==> parts == NonEmpty(Split(path))
    decreases |path|
  {
    if path == [] {
      assert NonEmpty([[]]) == NonEmpty([[]][1..]);
    } else if path[0] == SLASH {
      SplitAt(path, 0);
      MergedSpells(path[1..], parts);
      assert Split(path)[1..] == Split(path[1..]);
    } else {
      var n := if SLASH in path then FirstSlash(path) else |path|;
      FirstComponent(path, n);
      if parts != [] && parts[0] == path[..n] {
        MergedSpells(path[n..], parts[1..]);
        assert [parts[0]] + parts[1..] == parts;
      } else if Spells(path, parts) {
        OnlyComponent(path, n, parts[0]);
      }
    }
  }

  lemma {:induction false} FirstComponent(path: Name, n: nat)
    requires 0 < n <= |path| && SLASH !in path[..n] && (n < |path| ==> path[n] == SLASH)
    ensures NonEmpty(Split(path)) == [path[..n]] + NonEmpty(Split(path[n..]))
  {
    hide Split, NonEmpty;
    if n < |path| {
      var rest := path[n + 1..];
      SplitAt(path, n);
      SplitAt(path[n..], 0);
      assert path[n..][1..] == rest && path[n..][..0] == [];
      NonEmptyStep(path[..n], Split(rest));
      NonEmptyStep([], Split(rest));
      assert NonEmpty(Split(path[n..])) == NonEmpty(Split(rest));
    } else {
      assert path[..n] == path && path[n..] == [];
      WholeIs(path);
      WholeIs([]);
      NonEmptyStep(path, []);
      NonEmptyStep([], []);
    }
  }

  lemma NonEmptyStep(part: Name, parts: seq<Name>)
    ensures part != [] ==> NonEmpty([part] + parts) == [part] + NonEmpty(parts)
    ensures part == [] ==> NonEmpty([part] + parts) == NonEmpty(parts)
    ensures [part] + [] == [part] && NonEmpty([]) == []
  {
    assert ([part] + parts)[1..] == parts;
  }

  lemma WholeIs(path: Name)
    requires SLASH !in path
    ensures Split(path) == [path]
  {
  }

  lemma OnlyComponent(path: Name, n: nat, part: Name)
    requires 0 < n <= |path| && SLASH !in path[..n] && (n < |path| ==> path[n] == SLASH)
    requires SLASH !in part && part <= path && (|part| < |path| ==> path[|part|] == SLASH)
    ensures part == path[..n]
  {
    assert forall i :: 0 <= i < n ==> path[..n][i] == path[i] && path[i] != SLASH;
    assert forall i :: 0 <= i < |part| ==> part[i] == path[i] && path[i] != SLASH;
  }

  lemma {:induction false} NonEmptyAll(parts: seq<Name>)
    requires forall i :: 0 <= i < |parts| ==> parts[i] != []
    ensures NonEmpty(parts) == parts
    decreases |parts|
  {
    if parts != [] {
      NonEmptyAll(parts[1..]);
    }
  }

  lemma {:induction false} JoinHasNoNul(parts: seq<Name>)
    requires Proper(parts)
    ensures 0 !in Join(parts) && Join(parts) != []
    decreases |parts|
  {
    if |parts| > 1 {
      JoinHasNoNul(parts[1..]);
    }
  }

  function Kept(parts: seq<Name>, merge: bool): seq<Name> {
    if merge then NonEmpty(parts) else parts
  }

  /** The component that ends at slash `i`, then the rest. */
  lemma KeptAt(str: Name, last: nat, i: nat, merge: bool)
    requires last <= i < |str| && str[i] == SLASH && SLASH !in str[last..i]
    ensures Kept(Split(str[last..]), merge) ==
      (if !merge || last != i then [str[last..i]] else []) + Kept(Split(str[i + 1..]), merge)
  {
    var rest := str[last..];
    assert rest[..i - last] == str[last..i] && rest[i - last + 1..] == str[i + 1..];
    SplitAt(rest, i - last);
    assert Split(rest)[1..] == Split(str[i + 1..]);
  }

  lemma KeptLast(rest: Name, merge: bool)
    requires SLASH !in rest
    ensures Kept(Split(rest), merge) == if rest != [] || !merge then [rest] else []
  {
    assert NonEmpty([rest]) == (if rest == [] then [] else [rest]) + NonEmpty([rest][1..]);
  }

  lemma NoSlashYet(str: Name, last: nat, i: nat)
    requires last <= i < |str| && SLASH !in str[last..i] && str[i] != SLASH
    ensures SLASH !in str[last..i + 1]
  {
    assert str[last..i + 1] == str[last..i] + [str[i]];
  }

  /** `split`: one pass over the string. */
  method SplitPath(str: Name, merge: bool) returns (out: seq<Name>)
    ensures out == Kept(Split(str), merge)
    ensures merge ==> Spells(str, out)
    ensures !merge ==> out != [] && Join(out) == str && SlashFree(out)
  {
    hide Split, Kept, Join, SlashFree, Spells;
    out := [];
    var last := 0;
    assert str[0..] == str;
    for i := 0 to |str|
      invariant last <= i && SLASH !in str[last..i]
      invariant Kept(Split(str), merge) == out + Kept(Split(str[last..]), merge)
    {
      if str[i] == SLASH {
        KeptAt(str, last, i, merge);
        if !merge || last != i {
          out := out + [str[last..i]];
        }
        last := i + 1;
      } else {
        NoSlashYet(str, last, i);
      }
    }
    KeptLast(str[last..], merge);
    if last != |str| || !merge {
      out := out + [str[last..]];
    }
    KeptMeans(str, out, merge);
  }

  lemma KeptMeans(str: Name, out: seq<Name>, merge: bool)
    requires out == Kept(Split(str), merge)
    ensures merge ==> Spells(str, out)
    ensures !merge ==> out != [] && Join(out) == str && SlashFree(out)
  {
    hide Split, NonEmpty, Join, Spells;
    JoinSplit(str);
    MergedSpells(str, out);
  }

  /** A path as a C string ends at the first zero byte. */
  function CString(s: Name): (r: Name)
    ensures 0 !in r && r <= s && (0 !in s ==> r == s) && (|r| < |s| ==> s[|r|] == 0)
  {
    if s == [] || s[0] == 0 then [] else [s[0]] + CString(s[1..])
  }
}
