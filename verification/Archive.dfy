/** Archiving a folder and unpacking it again: writeTar and extractTar of
  * agent/internal/backup/owner.go. */
module Archive {
  import opened Prelude
  import opened Manifests

  /** A cleaned absolute path, as its components. */
  type Path = seq<string>

  datatype Node = Directory | RegularFile(content: Bytes)

  type Fs = map<Path, Node>

  /** Every stored path sits in stored directories. */
  ghost predicate Rooted(fs: Fs) {
    forall p, k :: p in fs && 0 < k < |p| ==> p[..k] in fs && fs[p[..k]] == Directory
  }

  datatype EntryType = TypeDir | TypeReg | TypeOther

  /** One tar entry; a truncated archive can end in the middle of a file. */
  datatype Entry = Entry(name: string, kind: EntryType, content: Bytes, whole: bool)

  // ---- Names -----------------------------------------------------------

  function Split(s: string): (parts: seq<string>)
    ensures |parts| >= 1
  {
    if s == "" then [""]
    else
      var rest := Split(s[1..]);
      if s[0] == '/' then [""] + rest else [[s[0]] + rest[0]] + rest[1..]
  }

  function JoinSlash(parts: seq<string>): string {
    if |parts| == 0 then "" else if |parts| == 1 then parts[0] else parts[0] + "/" + JoinSlash(parts[1..])
  }

  predicate ValidName(name: string) {
    name != "" && name != "." && name != ".." && '/' !in name
  }

  predicate ValidNames(parts: seq<string>) {
    forall i :: 0 <= i < |parts| ==> ValidName(parts[i])
  }

  /** filepath.Clean, component by component: done holds what is kept so far. */
  function CleanOnto(done: Path, parts: seq<string>, rooted: bool): Path
    decreases |parts|
  {
    if parts == [] then done
    else
      var part := parts[0];
      var next :=
        if part == "" || part == "." then done
        else if part == ".." then
          if done != [] && done[|done| - 1] != ".." then done[..|done| - 1]
          else if rooted then done
          else done + [part]
        else done + [part];
      CleanOnto(next, parts[1..], rooted)
  }

  predicate Absolute(name: string) {
    name != "" && name[0] == '/'
  }

  function Clean(name: string): Path {
    CleanOnto([], Split(name), Absolute(name))
  }

  predicate EndsInDots(part: string) {
    |part| >= 2 && part[|part| - 2..] == ".."
  }

  /** The cleaned text contains "../": some component but the last ends in "..". */
  predicate ContainsDotsSlash(parts: Path) {
    exists i :: 0 <= i < |parts| - 1 && EndsInDots(parts[i])
  }

  predicate Escapes(name: string) {
    var clean := Clean(name);
    Absolute(name) || clean == [] || clean[0] == ".." || ContainsDotsSlash(clean)
  }

  /** No component that cleaning would drop or follow upwards. */
  ghost predicate Plain(parts: Path) {
    forall i :: 0 <= i < |parts| ==> parts[i] != "" && parts[i] != "." && parts[i] != ".."
  }

  /** A cleaned relative path: some leading ".." and then plain components. */
  ghost predicate Cleaned(parts: Path) {
    exists n: nat :: n <= |parts| && Plain(parts[n..]) && forall i :: 0 <= i < n ==> parts[i] == ".."
  }

  lemma {:induction false} CleaningCleans(done: Path, parts: seq<string>)
    requires Cleaned(done)
    ensures Cleaned(CleanOnto(done, parts, false))
    decreases |parts|
  {
    if parts != [] {
      var part := parts[0];
      var n: nat :| n <= |done| && Plain(done[n..]) && forall i :: 0 <= i < n ==> done[i] == "..";
      assert forall i :: n <= i < |done| ==> done[i] == done[n..][i - n];
      if part == "" || part == "." {
        CleaningCleans(done, parts[1..]);
      } else if part == ".." && done != [] && done[|done| - 1] != ".." {
        var shorter := done[..|done| - 1];
        assert shorter[n..] == done[n..][..|shorter| - n];
        CleaningCleans(shorter, parts[1..]);
      } else {
        var longer := done + [part];
        if part == ".." {
          assert n == |done|;
          assert Plain(longer[|longer|..]);
        } else {
          assert longer[n..] == done[n..] + [part];
        }
        CleaningCleans(longer, parts[1..]);
      }
    }
  }

  lemma {:induction false} CleanKeepsPlain(done: Path, parts: seq<string>, rooted: bool)
    requires Plain(parts)
    ensures CleanOnto(done, parts, rooted) == done + parts
    ensures CleanOnto(done, parts + [""], rooted) == done + parts
    decreases |parts|
  {
    if parts == [] {
      assert [""][1..] == [];
    } else {
      CleanKeepsPlain(done + [parts[0]], parts[1..], rooted);
      assert (parts + [""])[1..] == parts[1..] + [""];
      assert done + [parts[0]] + parts[1..] == done + parts;
    }
  }

  /** A name that passes the first guard lands exactly where its own components
    * say, so the second guard (the prefix check) never fires. */
  lemma AcceptedNameStaysBelow(name: string, target: Path)
    requires !Escapes(name)
    ensures CleanOnto(target, Clean(name)[1..], true) == target + Clean(name)[1..]
  {
    var none: Path := [];
    assert Plain(none[0..]);
    CleaningCleans([], Split(name));
    var clean := Clean(name);
    var n: nat :| n <= |clean| && Plain(clean[n..]) && forall i :: 0 <= i < n ==> clean[i] == "..";
    assert n == 0;
    assert clean[0..] == clean;
    CleanKeepsPlain(target, clean[1..], true);
  }

  // ---- Unpacking -------------------------------------------------------

  datatype ExtractError = Unreadable | Escaping | AlreadyExists | NotADirectory | FileExists | Truncated | EmptyBackup

  function Prefixes(p: Path): set<Path> {
    set k | 0 < k <= |p| :: p[..k]
  }

  /** os.MkdirAll: fails, changing nothing, when a file is in the way. */
  function MkdirAll(fs: Fs, p: Path): Result<Fs, ExtractError> {
    if exists q :: q in Prefixes(p) && q in fs && fs[q].RegularFile? then Failure(NotADirectory)
    else Success(fs + map q | q in Prefixes(p) :: Directory)
  }

  function TargetFor(root: Path, top: string, stamp: string): Path {
    root + [top + "-" + stamp]
  }

  datatype Placed = Placed(fs: Fs, target: Result<Path, ExtractError>)

  /** One turn of extractTar's loop. */
  function PlaceEntry(fs: Fs, target: Option<Path>, e: Entry, root: Path, stamp: string): Placed {
    if Escapes(e.name) then Placed(fs, Failure(Escaping))
    else
      var clean := Clean(e.name);
      var t := if target.Some? then target.value else TargetFor(root, clean[0], stamp);
      if target.None? && t in fs then Placed(fs, Failure(AlreadyExists))
      else
        var made := if target.None? then MkdirAll(fs, t) else Success(fs);
        if made.Failure? then Placed(fs, Failure(made.error))
        else PlaceUnder(made.value, t, CleanOnto(t, clean[1..], true), e)
  }

  function PlaceUnder(fs: Fs, target: Path, dest: Path, e: Entry): Placed {
    if !(target <= dest) then Placed(fs, Failure(Escaping))
    else
      match e.kind
      case TypeOther => Placed(fs, Success(target))
      case TypeDir =>
        var made := MkdirAll(fs, dest);
        if made.Failure? then Placed(fs, Failure(made.error)) else Placed(made.value, Success(target))
      case TypeReg =>
        var parent := if dest == [] then [] else dest[..|dest| - 1];
        var made := MkdirAll(fs, parent);
        if made.Failure? then Placed(fs, Failure(made.error))
        else if dest in made.value then Placed(made.value, Failure(FileExists))
        else
          Placed(made.value[dest := RegularFile(e.content)], if e.whole then Success(target) else Failure(Truncated))
  }

  function Extract(fs: Fs, target: Option<Path>, entries: seq<Entry>, intact: bool, root: Path, stamp: string): Placed
    decreases |entries|
  {
    if entries == [] then
      if !intact then Placed(fs, Failure(Unreadable))
      else if target.None? then Placed(fs, Failure(EmptyBackup))
      else Placed(fs, Success(target.value))
    else
      var placed := PlaceEntry(fs, target, entries[0], root, stamp);
      if placed.target.Failure? then placed
      else Extract(placed.fs, Some(placed.target.value), entries[1..], intact, root, stamp)
  }

  lemma ExtractOneMore(fs: Fs, target: Option<Path>, entries: seq<Entry>, i: nat, intact: bool, root: Path, stamp: string)
    requires i < |entries|
    ensures var placed := PlaceEntry(fs, target, entries[i], root, stamp);
            Extract(fs, target, entries[i..], intact, root, stamp)
            == if placed.target.Failure? then placed
               else Extract(placed.fs, Some(placed.target.value), entries[i + 1..], intact, root, stamp)
  {
    assert entries[i..][0] == entries[i] && entries[i..][1..] == entries[i + 1..];
  }

  class Disk {
    var nodes: Fs

    constructor (nodes: Fs)
      ensures this.nodes == nodes
    {
      this.nodes := nodes;
    }

    method Mkdirs(p: Path) returns (error: Option<ExtractError>)
      modifies this
      ensures MkdirAll(old(nodes), p) == if error.None? then Success(nodes) else Failure(error.value)
      ensures error.Some? ==> nodes == old(nodes)
    {
      var k := 0;
      while k < |p|
        invariant 0 <= k <= |p|
        invariant forall j :: 0 < j <= k ==> !(p[..j] in nodes && nodes[p[..j]].RegularFile?)
      {
        if p[..k + 1] in nodes && nodes[p[..k + 1]].RegularFile? {
          assert p[..k + 1] in Prefixes(p);
          return Some(NotADirectory);
        }
        k := k + 1;
      }
      nodes := nodes + map q | q in Prefixes(p) :: Directory;
      error := None;
    }

    /** The switch at the end of the loop: creates one file or directory. */
    method Create(target: Path, dest: Path, e: Entry) returns (r: Result<Path, ExtractError>)
      modifies this
      ensures Placed(nodes, r) == PlaceUnder(old(nodes), target, dest, e)
    {
      if !(target <= dest) {
        return Failure(Escaping);
      }
      if e.kind.TypeDir? {
        var error := Mkdirs(dest);
        if error.Some? {
          return Failure(error.value);
        }
      } else if e.kind.TypeReg? {
        var error := Mkdirs(if dest == [] then [] else dest[..|dest| - 1]);
        if error.Some? {
          return Failure(error.value);
        }
        if dest in nodes {
          return Failure(FileExists);
        }
        nodes := nodes[dest := RegularFile(e.content)];
        if !e.whole {
          return Failure(Truncated);
        }
      }
      r := Success(target);
    }

    method Place(target: Option<Path>, e: Entry, root: Path, stamp: string) returns (r: Result<Path, ExtractError>)
      modifies this
      ensures Placed(nodes, r) == PlaceEntry(old(nodes), target, e, root, stamp)
    {
      if Escapes(e.name) {
        return Failure(Escaping);
      }
      var clean := Clean(e.name);
      var t := if target.Some? then target.value else TargetFor(root, clean[0], stamp);
      if target.None? {
        if t in nodes {
          return Failure(AlreadyExists);
        }
        var error := Mkdirs(t);
        if error.Some? {
          return Failure(error.value);
        }
      }
      r := Create(t, CleanOnto(t, clean[1..], true), e);
    }

    /** Unpacks an archive; on an error the entries before it stay unpacked. */
    method ExtractTar(entries: seq<Entry>, intact: bool, root: Path, stamp: string) returns (r: Result<Path, ExtractError>)
      modifies this
      ensures Placed(nodes, r) == Extract(old(nodes), None, entries, intact, root, stamp)
    {
      var target: Option<Path> := None;
      var i := 0;
      assert entries[0..] == entries;
      while i < |entries|
        invariant 0 <= i <= |entries|
        invariant Extract(old(nodes), None, entries, intact, root, stamp)
                  == Extract(nodes, target, entries[i..], intact, root, stamp)
      {
        ExtractOneMore(nodes, target, entries, i, intact, root, stamp);
        r := Place(target, entries[i], root, stamp);
        if r.Failure? {
          return;
        }
        target := Some(r.value);
        i := i + 1;
      }
      if !intact {
        return Failure(Unreadable);
      }
      if target.None? {
        return Failure(EmptyBackup);
      }
      r := Success(target.value);
    }
  }

  // ---- Confinement -----------------------------------------------------

  /** after keeps everything before had, and whatever is new is a directory
    * above top or lies in top. */
  ghost predicate GrowsOnlyIn(before: Fs, after: Fs, top: Path) {
    && (forall p :: p in before ==> p in after && after[p] == before[p])
    && (forall p :: p in after && p !in before ==>
         top <= p || (p <= top && after[p] == Directory))
  }

  lemma MkdirGrows(fs: Fs, p: Path, top: Path)
    requires top <= p || p <= top
    requires MkdirAll(fs, p).Success?
    ensures GrowsOnlyIn(fs, MkdirAll(fs, p).value, top)
  {
    var after := MkdirAll(fs, p).value;
    forall q | q in after && q !in fs
      ensures top <= q || (q <= top && after[q] == Directory)
    {
      assert q in Prefixes(p);
      var k :| 0 < k <= |p| && q == p[..k];
      if |top| <= k && top <= p {
        assert q[..|top|] == top;
      }
    }
    forall q | q in fs
      ensures after[q] == fs[q]
    {
    }
  }

  lemma PlaceUnderConfined(fs: Fs, target: Path, dest: Path, e: Entry)
    requires target != []
    ensures GrowsOnlyIn(fs, PlaceUnder(fs, target, dest, e).fs, target)
  {
    if target <= dest && !e.kind.TypeOther? {
      var parent := dest[..|dest| - 1];
      assert parent <= target || target <= parent by {
        if |dest| == |target| {
          assert dest == target;
        } else {
          assert target == parent[..|target|];
        }
      }
      if e.kind.TypeDir? && MkdirAll(fs, dest).Success? {
        MkdirGrows(fs, dest, target);
      }
      if e.kind.TypeReg? && MkdirAll(fs, parent).Success? {
        MkdirGrows(fs, parent, target);
      }
    }
  }

  lemma GrowthChains(a: Fs, b: Fs, c: Fs, top: Path)
    requires GrowsOnlyIn(a, b, top) && GrowsOnlyIn(b, c, top)
    ensures GrowsOnlyIn(a, c, top)
  {
  }

  lemma PlaceEntryConfined(fs: Fs, target: Option<Path>, e: Entry, root: Path, stamp: string)
    requires target.Some? ==> target.value != []
    requires !Escapes(e.name)
    ensures var t := if target.Some? then target.value else TargetFor(root, Clean(e.name)[0], stamp);
            var placed := PlaceEntry(fs, target, e, root, stamp);
            && GrowsOnlyIn(fs, placed.fs, t)
            && (placed.target.Success? ==> placed.target.value == t)
  {
    var clean := Clean(e.name);
    var t := if target.Some? then target.value else TargetFor(root, clean[0], stamp);
    var made := if target.None? then MkdirAll(fs, t) else Success(fs);
    if made.Success? {
      if target.None? {
        MkdirGrows(fs, t, t);
      }
      PlaceUnderConfined(made.value, t, CleanOnto(t, clean[1..], true), e);
      GrowthChains(fs, made.value, PlaceUnder(made.value, t, CleanOnto(t, clean[1..], true), e).fs, t);
    }
  }

  lemma {:induction false} ExtractConfined(fs: Fs, target: Path, entries: seq<Entry>, intact: bool, root: Path, stamp: string)
    requires target != []
    ensures var out := Extract(fs, Some(target), entries, intact, root, stamp);
            GrowsOnlyIn(fs, out.fs, target) && (out.target.Success? ==> out.target.value == target)
    decreases |entries|
  {
    if entries != [] && !Escapes(entries[0].name) {
      PlaceEntryConfined(fs, Some(target), entries[0], root, stamp);
      var placed := PlaceEntry(fs, Some(target), entries[0], root, stamp);
      if placed.target.Success? {
        ExtractConfined(placed.fs, target, entries[1..], intact, root, stamp);
        GrowthChains(fs, placed.fs, Extract(placed.fs, Some(target), entries[1..], intact, root, stamp).fs, target);
      }
    }
  }

  /** Whatever an archive contains, unpacking it changes no existing file or
    * directory, creates nothing outside one folder that did not exist before
    * (and that folder's parents), and reports that folder. */
  lemma UnpackingIsConfined(fs: Fs, entries: seq<Entry>, intact: bool, root: Path, stamp: string)
    ensures var out := Extract(fs, None, entries, intact, root, stamp);
            if entries == [] || Escapes(entries[0].name) || TargetFor(root, Clean(entries[0].name)[0], stamp) in fs
            then out.fs == fs && out.target.Failure?
            else
              var target := TargetFor(root, Clean(entries[0].name)[0], stamp);
              && GrowsOnlyIn(fs, out.fs, target)
              && (out.target.Success? ==> out.target.value == target)
  {
    if entries != [] && !Escapes(entries[0].name) {
      var t := TargetFor(root, Clean(entries[0].name)[0], stamp);
      PlaceEntryConfined(fs, None, entries[0], root, stamp);
      var placed := PlaceEntry(fs, None, entries[0], root, stamp);
      if placed.target.Success? {
        ExtractConfined(placed.fs, t, entries[1..], intact, root, stamp);
        GrowthChains(fs, placed.fs, Extract(placed.fs, Some(t), entries[1..], intact, root, stamp).fs, t);
      }
    }
  }

  // ---- What a successful unpacking left --------------------------------------------------

  /** e is on the disk at dest: a file with just this content, a directory;
    * anything else is skipped. */
  ghost predicate IsAt(fs: Fs, dest: Path, e: Entry) {
    && (e.kind == TypeReg ==> e.whole && dest in fs && fs[dest] == RegularFile(e.content))
    && (e.kind == TypeDir && dest != [] ==> dest in fs && fs[dest] == Directory)
  }

  ghost predicate Unpacked(fs: Fs, target: Path, e: Entry) {
    Clean(e.name) != [] && IsAt(fs, target + Clean(e.name)[1..], e)
  }

  lemma PlacedUnderIsAt(fs: Fs, target: Path, dest: Path, e: Entry)
    requires PlaceUnder(fs, target, dest, e).target.Success?
    ensures IsAt(PlaceUnder(fs, target, dest, e).fs, dest, e)
  {
    if dest != [] {
      assert dest[..|dest|] == dest;
      assert dest in Prefixes(dest);
    }
  }

  lemma PlacedIsUnpacked(fs: Fs, target: Path, e: Entry, root: Path, stamp: string)
    requires target != [] && PlaceEntry(fs, Some(target), e, root, stamp).target.Success?
    ensures !Escapes(e.name) && Unpacked(PlaceEntry(fs, Some(target), e, root, stamp).fs, target, e)
  {
    AcceptedNameStaysBelow(e.name, target);
    PlacedUnderIsAt(fs, target, target + Clean(e.name)[1..], e);
  }

  /** Links, devices and the like are passed over. */
  lemma OthersAreSkipped(fs: Fs, target: Path, e: Entry, root: Path, stamp: string)
    requires e.kind == TypeOther && !Escapes(e.name)
    ensures PlaceEntry(fs, Some(target), e, root, stamp) == Placed(fs, Success(target))
  {
    AcceptedNameStaysBelow(e.name, target);
  }

  lemma StaysUnpacked(before: Fs, after: Fs, top: Path, target: Path, e: Entry)
    requires GrowsOnlyIn(before, after, top) && Unpacked(before, target, e)
    ensures Unpacked(after, target, e)
  {
  }

  lemma {:induction false} RestIsUnpacked(fs: Fs, target: Path, entries: seq<Entry>, intact: bool, root: Path, stamp: string, i: nat)
    requires target != [] && Extract(fs, Some(target), entries, intact, root, stamp).target.Success?
    ensures intact
    ensures i < |entries| ==> !Escapes(entries[i].name) && Unpacked(Extract(fs, Some(target), entries, intact, root, stamp).fs, target, entries[i])
    decreases |entries|
  {
    if entries != [] {
      var placed := PlaceEntry(fs, Some(target), entries[0], root, stamp);
      PlacedIsUnpacked(fs, target, entries[0], root, stamp);
      PlaceEntryConfined(fs, Some(target), entries[0], root, stamp);
      ExtractConfined(placed.fs, target, entries[1..], intact, root, stamp);
      RestIsUnpacked(placed.fs, target, entries[1..], intact, root, stamp, if i > 0 then i - 1 else 0);
      if i == 0 {
        StaysUnpacked(placed.fs, Extract(placed.fs, Some(target), entries[1..], intact, root, stamp).fs, target, target, entries[0]);
      }
    }
  }

  lemma FirstIsLikeTheRest(fs: Fs, e: Entry, root: Path, stamp: string) returns (made: Fs)
    requires PlaceEntry(fs, None, e, root, stamp).target.Success?
    ensures !Escapes(e.name) && Clean(e.name) != []
    ensures var target := root + [Clean(e.name)[0] + "-" + stamp];
            target !in fs && PlaceEntry(made, Some(target), e, root, stamp) == PlaceEntry(fs, None, e, root, stamp)
  {
    made := MkdirAll(fs, TargetFor(root, Clean(e.name)[0], stamp)).value;
  }

  /** Unpacking any archive reports success only if it was read to its end, it has
    * an entry, no name in it escapes and no file was cut short; the folder it
    * reports is new and named after the first entry, and holds every file with
    * its own content and every directory. */
  lemma SuccessMeansAllUnpacked(fs: Fs, entries: seq<Entry>, intact: bool, root: Path, stamp: string, i: nat)
    requires Extract(fs, None, entries, intact, root, stamp).target.Success?
    ensures intact && entries != [] && Clean(entries[0].name) != []
    ensures var out, target := Extract(fs, None, entries, intact, root, stamp), root + [Clean(entries[0].name)[0] + "-" + stamp];
            && target !in fs && out.target == Success(target)
            && (i < |entries| ==> !Escapes(entries[i].name) && Unpacked(out.fs, target, entries[i]))
  {
    var placed := PlaceEntry(fs, None, entries[0], root, stamp);
    var made := FirstIsLikeTheRest(fs, entries[0], root, stamp);
    var target := root + [Clean(entries[0].name)[0] + "-" + stamp];
    assert Extract(made, Some(target), entries, intact, root, stamp) == Extract(fs, None, entries, intact, root, stamp);
    RestIsUnpacked(made, target, entries, intact, root, stamp, i);
    ExtractConfined(made, target, entries, intact, root, stamp);
  }
}
