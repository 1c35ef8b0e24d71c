/** What unpacking makes of an archive that writeTar produced. */
module ArchiveRoundTrip {
  import opened Prelude
  import opened Manifests
  import opened Archive

  /** What a directory walk can meet; Special is a symlink, socket or device. */
  datatype Item = Folder | File(content: Bytes) | Special

  /** A folder's contents by relative path; [] is the folder itself. */
  type Tree = map<Path, Item>

  ghost predicate WellFormed(t: Tree) {
    && [] in t && t[[]] == Folder
    && (forall p :: p in t ==> ValidNames(p))
    && (forall p, k :: p in t && 0 <= k < |p| ==> p[..k] in t && t[p[..k]] == Folder)
  }

  /** filepath.WalkDir: everything once, directories before what they hold. */
  ghost predicate IsWalk(t: Tree, walk: seq<Path>) {
    && walk != [] && walk[0] == []
    && (forall p :: p in t <==> p in walk)
    && (forall i, j :: 0 <= i < j < |walk| ==> walk[i] != walk[j])
    && (forall i, k :: 0 <= i < |walk| && 0 <= k < |walk[i]| ==> walk[i][..k] in walk[..i])
  }

  function TarEntry(base: string, rel: Path, item: Item): Entry
    requires !item.Special?
  {
    var name := JoinSlash([base] + rel);
    if item.Folder? then Entry(name + "/", TypeDir, [], true) else Entry(name, TypeReg, item.content, true)
  }

  /** writeTar's callback over the walk: specials are skipped. */
  function WriteTar(base: string, t: Tree, walk: seq<Path>): seq<Entry>
    requires forall i :: 0 <= i < |walk| ==> walk[i] in t
  {
    if walk == [] then []
    else
      (if t[walk[0]].Special? then [] else [TarEntry(base, walk[0], t[walk[0]])]) + WriteTar(base, t, walk[1..])
  }

  // ---- Names survive ---------------------------------------------------

  lemma {:induction false} SplitAtSlash(name: string, rest: string)
    requires '/' !in name
    ensures Split(name + "/" + rest) == [name] + Split(rest)
    ensures Split(name) == [name]
  {
    if name == "" {
      assert ("/" + rest)[1..] == rest;
      assert name + "/" + rest == "/" + rest;
    } else {
      SplitAtSlash(name[1..], rest);
      assert (name + "/" + rest)[1..] == name[1..] + "/" + rest;
      assert [name[0]] + name[1..] == name;
    }
  }

  lemma {:induction false} SplitJoined(parts: seq<string>)
    requires parts != [] && ValidNames(parts)
    ensures Split(JoinSlash(parts)) == parts
    ensures Split(JoinSlash(parts) + "/") == parts + [""]
    ensures !Absolute(JoinSlash(parts)) && !Absolute(JoinSlash(parts) + "/")
  {
    assert parts[0][0] in parts[0];
    if |parts| == 1 {
      SplitOne(parts[0]);
      assert parts == [parts[0]];
    } else {
      SplitJoined(parts[1..]);
      var rest := JoinSlash(parts[1..]);
      SplitAtSlash(parts[0], rest);
      SplitAtSlash(parts[0], rest + "/");
      assert parts[0] + "/" + rest + "/" == parts[0] + "/" + (rest + "/");
      assert parts == [parts[0]] + parts[1..];
    }
  }

  lemma SplitOne(name: string)
    requires '/' !in name
    ensures Split(name) == [name] && Split(name + "/") == [name, ""]
  {
    SplitAtSlash(name, "");
    assert name + "/" + "" == name + "/";
  }

  /** An archived name cleans to its own components, and is refused exactly
    * when a component before the last ends in "..". */
  lemma ArchivedName(base: string, rel: Path, item: Item)
    requires ValidName(base) && ValidNames(rel) && !item.Special?
    ensures Clean(TarEntry(base, rel, item).name) == [base] + rel
    ensures Escapes(TarEntry(base, rel, item).name) <==> ContainsDotsSlash([base] + rel)
  {
    var parts := [base] + rel;
    SplitJoined(parts);
    CleanKeepsPlain([], parts, false);
  }

  // ---- The tree comes back ----------------------------------------------

  function NodeOf(item: Item): Node
    requires !item.Special?
  {
    if item.Folder? then Directory else RegularFile(item.content)
  }

  /** rel has been laid down: it was walked, and it is not special. */
  ghost predicate Laid(t: Tree, seen: seq<Path>, rel: Path) {
    rel in seen && rel in t && !t[rel].Special?
  }

  /** now is before, plus target and its parents as directories, plus exactly
    * the walked part of t under target. */
  ghost predicate Rebuilt(before: Fs, now: Fs, target: Path, t: Tree, seen: seq<Path>) {
    && (forall p :: p in now <==> p in before || p in Prefixes(target) || (target <= p && Laid(t, seen, p[|target|..])))
    && (forall p :: p in before ==> now[p] == before[p])
    && (forall p :: p in Prefixes(target) ==> now[p] == Directory)
    && (forall p :: target <= p && Laid(t, seen, p[|target|..]) ==> now[p] == NodeOf(t[p[|target|..]]))
  }

  ghost predicate ClearWay(fs: Fs, target: Path) {
    target !in fs && forall q :: q in Prefixes(target) && q in fs ==> fs[q] == Directory
  }

  lemma PrefixOfDest(target: Path, rel: Path, q: Path)
    requires q in Prefixes(target + rel)
    ensures q in Prefixes(target) || (target <= q && exists k :: 0 < k <= |rel| && q[|target|..] == rel[..k] && q == target + rel[..k])
  {
    var n :| 0 < n <= |target + rel| && q == (target + rel)[..n];
    if n <= |target| {
      assert q == target[..n];
    } else {
      assert q == target + rel[..n - |target|];
      assert q[|target|..] == rel[..n - |target|];
    }
  }

  lemma NothingBelow(before: Fs, target: Path, rel: Path)
    requires Rooted(before) && target != [] && target !in before
    ensures target + rel !in before
  {
    if rel == [] {
      assert target + rel == target;
    } else {
      assert (target + rel)[..|target|] == target;
    }
  }

  /** A directory whose ancestors are laid already adds only itself. */
  lemma MkdirLaid(before: Fs, now: Fs, target: Path, t: Tree, seen: seq<Path>, rel: Path)
    requires WellFormed(t) && rel in t && t[rel] == Folder
    requires Rooted(before) && target != [] && target !in before
    requires Rebuilt(before, now, target, t, seen)
    requires forall k :: 0 <= k < |rel| ==> rel[..k] in seen
    ensures MkdirAll(now, target + rel) == Success(now[target + rel := Directory])
  {
    var dest := target + rel;
    forall q | q in Prefixes(dest)
      ensures q in now || q == dest
      ensures q in now ==> now[q] == Directory
    {
      PrefixOfDest(target, rel, q);
      if q !in Prefixes(target) {
        var k :| 0 < k <= |rel| && q[|target|..] == rel[..k] && q == target + rel[..k];
        NothingBelow(before, target, rel[..k]);
        assert rel[..|rel|] == rel;
        if k < |rel| {
          assert Laid(t, seen, q[|target|..]);
        }
      }
    }
    assert dest == dest[..|dest|] && dest in Prefixes(dest);
    assert now + (map q | q in Prefixes(dest) :: Directory) == now[dest := Directory];
  }

  lemma LaidStep(before: Fs, now: Fs, target: Path, t: Tree, seen: seq<Path>, rel: Path)
    requires rel in t && !t[rel].Special?
    requires Rebuilt(before, now, target, t, seen)
    requires target + rel !in before && (target + rel in Prefixes(target) ==> t[rel] == Folder)
    ensures Rebuilt(before, now[target + rel := NodeOf(t[rel])], target, t, seen + [rel])
  {
    var dest := target + rel;
    assert dest[|target|..] == rel && target <= dest;
    forall p | target <= p
      ensures Laid(t, seen + [rel], p[|target|..]) <==> Laid(t, seen, p[|target|..]) || p == dest
    {
      assert p == target + p[|target|..];
    }
  }

  /** A file's parent is there already and the file itself is not. */
  lemma FileHasRoom(before: Fs, now: Fs, target: Path, t: Tree, seen: seq<Path>, rel: Path)
    requires WellFormed(t) && rel in t && t[rel].File?
    requires Rooted(before) && target != [] && target !in before
    requires Rebuilt(before, now, target, t, seen) && rel !in seen
    requires forall k :: 0 <= k < |rel| ==> rel[..k] in seen
    ensures rel != []
    ensures MkdirAll(now, (target + rel)[..|target + rel| - 1]) == Success(now)
    ensures target + rel !in now
  {
    var dest := target + rel;
    var above := rel[..|rel| - 1];
    assert forall k :: 0 <= k < |above| ==> above[..k] == rel[..k];
    MkdirLaid(before, now, target, t, seen, above);
    assert dest[..|dest| - 1] == target + above;
    assert Laid(t, seen, above) && (target + above)[|target|..] == above;
    assert now[target + above := Directory] == now;
    NothingBelow(before, target, rel);
    assert dest[|target|..] == rel;
    assert |dest| > |target|;
  }

  /** One more walked item keeps the rebuilt part exact. */
  lemma PlaceNext(before: Fs, now: Fs, target: Path, t: Tree, seen: seq<Path>, rel: Path, base: string, root: Path, stamp: string)
    requires WellFormed(t) && rel in t && !t[rel].Special? && ValidName(base)
    requires Rooted(before) && target != [] && target !in before
    requires Rebuilt(before, now, target, t, seen) && rel !in seen
    requires forall k :: 0 <= k < |rel| ==> rel[..k] in seen
    requires !ContainsDotsSlash([base] + rel)
    ensures var placed := PlaceEntry(now, Some(target), TarEntry(base, rel, t[rel]), root, stamp);
            placed.target == Success(target) && Rebuilt(before, placed.fs, target, t, seen + [rel])
  {
    var e := TarEntry(base, rel, t[rel]);
    var dest := target + rel;
    ArchivedName(base, rel, t[rel]);
    CleanKeepsPlain(target, rel, true);
    assert Clean(e.name)[1..] == rel;
    assert target <= dest;
    if t[rel].Folder? {
      MkdirLaid(before, now, target, t, seen, rel);
    } else {
      FileHasRoom(before, now, target, t, seen, rel);
    }
    assert PlaceUnder(now, target, dest, e) == Placed(now[dest := NodeOf(t[rel])], Success(target));
    NothingBelow(before, target, rel);
    LaidStep(before, now, target, t, seen, rel);
  }

  /** Some archived path holds a folder whose name ends in ".." and is not
    * itself the last component. */
  ghost predicate HasDottedFolder(base: string, t: Tree) {
    exists rel :: rel in t && !t[rel].Special? && ContainsDotsSlash([base] + rel)
  }

  /** The walk up to rel, and what is known of rel when the walk reaches it. */
  ghost predicate Reached(t: Tree, seen: seq<Path>, rel: Path) {
    rel in t && rel !in seen && forall k :: 0 <= k < |rel| ==> rel[..k] in seen
  }

  lemma WalkReaches(t: Tree, walk: seq<Path>, i: nat)
    requires IsWalk(t, walk) && i < |walk|
    ensures Reached(t, walk[..i], walk[i])
  {
  }

  lemma PlaceStep(before: Fs, now: Fs, target: Path, t: Tree, seen: seq<Path>, rel: Path, rest: seq<Path>, base: string, root: Path, stamp: string)
    returns (next: Fs)
    requires WellFormed(t) && ValidName(base) && Reached(t, seen, rel)
    requires forall j :: 0 <= j < |rest| ==> rest[j] in t
    requires Rooted(before) && target != [] && target !in before
    requires Rebuilt(before, now, target, t, seen) && !HasDottedFolder(base, t)
    ensures Rebuilt(before, next, target, t, seen + [rel])
    ensures Extract(now, Some(target), WriteTar(base, t, [rel] + rest), true, root, stamp)
            == Extract(next, Some(target), WriteTar(base, t, rest), true, root, stamp)
  {
    var entries := WriteTar(base, t, [rel] + rest);
    assert ([rel] + rest)[1..] == rest;
    if t[rel].Special? {
      next := now;
      assert entries == WriteTar(base, t, rest);
      assert forall p :: Laid(t, seen + [rel], p) <==> Laid(t, seen, p);
    } else {
      PlaceNext(before, now, target, t, seen, rel, base, root, stamp);
      next := PlaceEntry(now, Some(target), TarEntry(base, rel, t[rel]), root, stamp).fs;
      assert entries[0] == TarEntry(base, rel, t[rel]) && entries[1..] == WriteTar(base, t, rest);
    }
  }

  lemma CutAt(walk: seq<Path>, i: nat)
    requires i < |walk|
    ensures walk[i..] == [walk[i]] + walk[i + 1..] && walk[..i + 1] == walk[..i] + [walk[i]]
  {
  }

  lemma {:induction false} PlaceRest(before: Fs, now: Fs, target: Path, t: Tree, walk: seq<Path>, i: nat, base: string, root: Path, stamp: string)
    requires WellFormed(t) && IsWalk(t, walk) && ValidName(base) && i <= |walk|
    requires Rooted(before) && target != [] && target !in before
    requires Rebuilt(before, now, target, t, walk[..i]) && !HasDottedFolder(base, t)
    ensures var out := Extract(now, Some(target), WriteTar(base, t, walk[i..]), true, root, stamp);
            out.target == Success(target) && Rebuilt(before, out.fs, target, t, walk)
    decreases |walk| - i
  {
    if i == |walk| {
      assert walk[..i] == walk && walk[i..] == [];
    } else {
      WalkReaches(t, walk, i);
      CutAt(walk, i);
      var next := PlaceStep(before, now, target, t, walk[..i], walk[i], walk[i + 1..], base, root, stamp);
      PlaceRest(before, next, target, t, walk, i + 1, base, root, stamp);
    }
  }

  lemma {:induction false} SuccessMeansNoEscape(fs: Fs, target: Option<Path>, entries: seq<Entry>, root: Path, stamp: string, i: nat)
    requires i < |entries|
    requires Extract(fs, target, entries, true, root, stamp).target.Success?
    ensures !Escapes(entries[i].name)
    decreases |entries|
  {
    if i > 0 {
      var placed := PlaceEntry(fs, target, entries[0], root, stamp);
      SuccessMeansNoEscape(placed.fs, Some(placed.target.value), entries[1..], root, stamp, i - 1);
    }
  }

  lemma {:induction false} EveryItemArchived(base: string, t: Tree, walk: seq<Path>, rel: Path) returns (i: nat)
    requires forall j :: 0 <= j < |walk| ==> walk[j] in t
    requires rel in walk && !t[rel].Special?
    ensures i < |WriteTar(base, t, walk)| && WriteTar(base, t, walk)[i] == TarEntry(base, rel, t[rel])
  {
    if walk[0] == rel {
      i := 0;
    } else {
      i := EveryItemArchived(base, t, walk[1..], rel);
      if !t[walk[0]].Special? {
        i := i + 1;
      }
    }
  }

  /** Unpacking what writeTar archived succeeds exactly when the new folder's
    * place is free and no archived folder's name ends in ".."; it then leaves
    * the disk as it was plus exactly the folder's directories and regular
    * files, under the new name. */
  lemma UnpackRebuildsFolder(before: Fs, base: string, t: Tree, walk: seq<Path>, root: Path, stamp: string)
    requires WellFormed(t) && IsWalk(t, walk) && ValidName(base) && Rooted(before)
    ensures var target := TargetFor(root, base, stamp);
            var out := Extract(before, None, WriteTar(base, t, walk), true, root, stamp);
            && (out.target.Success? <==> ClearWay(before, target) && !HasDottedFolder(base, t))
            && (out.target.Success? ==> out.target.value == target && Rebuilt(before, out.fs, target, t, walk))
  {
    var target := TargetFor(root, base, stamp);
    var entries := WriteTar(base, t, walk);
    var out := Extract(before, None, entries, true, root, stamp);
    assert ValidNames([]) && [base] + [] == [base];
    ArchivedName(base, [], Folder);
    assert entries[0] == TarEntry(base, [], Folder);
    CleanKeepsPlain(target, [], true);
    assert Clean(entries[0].name)[1..] == [];
    if out.target.Success? && HasDottedFolder(base, t) {
      var rel :| rel in t && !t[rel].Special? && ContainsDotsSlash([base] + rel);
      var i := EveryItemArchived(base, t, walk, rel);
      SuccessMeansNoEscape(before, None, entries, root, stamp, i);
      ArchivedName(base, rel, t[rel]);
    }
    if ClearWay(before, target) && !HasDottedFolder(base, t) {
      FirstEntry(before, base, t, walk, root, stamp);
    }
  }

  lemma TargetIsMade(before: Fs, target: Path, t: Tree)
    requires ClearWay(before, target)
    ensures var made := before + map q | q in Prefixes(target) :: Directory;
            MkdirAll(before, target) == Success(made) && Rebuilt(before, made, target, t, [])
  {
  }

  /** The first entry makes the new folder; from there on it is like any other. */
  lemma FirstPlaced(before: Fs, base: string, root: Path, stamp: string)
    requires ValidName(base) && ClearWay(before, TargetFor(root, base, stamp))
    ensures var target := TargetFor(root, base, stamp);
            var made := before + map q | q in Prefixes(target) :: Directory;
            var e := TarEntry(base, [], Folder);
            PlaceEntry(before, None, e, root, stamp) == PlaceEntry(made, Some(target), e, root, stamp)
  {
    ArchivedName(base, [], Folder);
    assert [base] + [] == [base];
    TargetIsMade(before, TargetFor(root, base, stamp), map[]);
  }

  lemma FirstEntry(before: Fs, base: string, t: Tree, walk: seq<Path>, root: Path, stamp: string)
    requires WellFormed(t) && IsWalk(t, walk) && ValidName(base) && Rooted(before)
    requires ClearWay(before, TargetFor(root, base, stamp)) && !HasDottedFolder(base, t)
    ensures var target := TargetFor(root, base, stamp);
            var out := Extract(before, None, WriteTar(base, t, walk), true, root, stamp);
            out.target == Success(target) && Rebuilt(before, out.fs, target, t, walk)
  {
    var target := TargetFor(root, base, stamp);
    var entries := WriteTar(base, t, walk);
    var made := before + map q | q in Prefixes(target) :: Directory;
    TargetIsMade(before, target, t);
    FirstPlaced(before, base, root, stamp);
    assert entries[0] == TarEntry(base, [], Folder) && entries[0..] == entries;
    ExtractOneMore(before, None, entries, 0, true, root, stamp);
    ExtractOneMore(made, Some(target), entries, 0, true, root, stamp);
    assert walk[..0] == [] && walk[0..] == walk;
    PlaceRest(before, made, target, t, walk, 0, base, root, stamp);
  }

  /** Such a folder exists: an ordinary folder "a.." holding one file is
    * archived without complaint and can never be unpacked. */
  lemma DottedFolderNeverComesBack(before: Fs, root: Path, stamp: string)
    requires Rooted(before)
    ensures var t: Tree := map[[] := Folder, ["a.."] := Folder, ["a..", "f"] := File([])];
            var walk: seq<Path> := [[], ["a.."], ["a..", "f"]];
            && WellFormed(t) && IsWalk(t, walk)
            && Extract(before, None, WriteTar("d", t, walk), true, root, stamp).target.Failure?
  {
    var t: Tree := map[[] := Folder, ["a.."] := Folder, ["a..", "f"] := File([])];
    var walk: seq<Path> := [[], ["a.."], ["a..", "f"]];
    assert forall p :: p in t ==> ValidNames(p);
    assert ["a..", "f"][..1] == ["a.."];
    forall p, k | p in t && 0 <= k < |p|
      ensures p[..k] in t && t[p[..k]] == Folder
    {
      assert p[..0] == [];
    }
    forall i, k | 0 <= i < |walk| && 0 <= k < |walk[i]|
      ensures walk[i][..k] in walk[..i]
    {
      assert walk[i][..0] == [] && walk[..1][0] == [];
      assert walk[..2][0] == [] && walk[..2][1] == ["a.."];
    }
    var rel := ["a..", "f"];
    assert EndsInDots((["d"] + rel)[1]) && ContainsDotsSlash(["d"] + rel);
    assert HasDottedFolder("d", t);
    UnpackRebuildsFolder(before, "d", t, walk, root, stamp);
  }
}
