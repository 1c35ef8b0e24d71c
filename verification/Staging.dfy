/** MaintainStaging (agent/internal/mirror/catcher.go): the folder a catcher
  * mirrors holds the at-risk files, hard-linked or copied. */
module Staging {
  import opened Prelude
  import opened Protection

  const MARKER := ".stfolder"

  /** Lies below a marker directory, which the walk never enters. */
  predicate BelowMarker(p: Path) {
    exists i :: 0 <= i < |p| - 1 && p[i] == MARKER
  }

  /** How far the system gets with one file. */
  datatype Luck = Links | Copies | Neither

  predicate Above(q: Path, p: Path) {
    q != [] && q < p
  }

  function Parents(p: Path): set<Path> {
    set i | 0 < i < |p| :: p[..i]
  }

  predicate HasBelow(t: Tree, p: Path) {
    exists r :: r in t && p < r
  }

  /** Can be staged: a file here, with no staged file above it, and no staged
    * directory with anything in it in its place. */
  ghost predicate Stageable(p: Path, local: Tree, staging: Tree) {
    && p in local && local[p].File?
    && (forall q :: q in Parents(p) && q in staging ==> staging[q] == Dir)
    && !(p in staging && staging[p] == Dir && HasBelow(staging, p))
  }

  ghost predicate Known(t: Tree, contents: map<Inode, string>) {
    forall p :: p in t && t[p].File? ==> t[p].inode in contents
  }

  /** Every earlier file still holds what it held. */
  ghost predicate Untouched(before: map<Inode, string>, after: map<Inode, string>) {
    forall i :: i in before ==> i in after && after[i] == before[i]
  }

  lemma ParentsAre(p: Path, q: Path)
    ensures q in Parents(p) <==> Above(q, p)
  {
    if Above(q, p) {
      assert q == p[..|q|];
    }
  }

  /** The tree with p as a file and directories above it. */
  function Staged(t: Tree, p: Path, inode: Inode): Tree {
    (map q | q in t.Keys + Parents(p) + {p} ::
       if q == p then File(inode) else if q in Parents(p) then Dir else t[q])
  }

  lemma StagedIsWellFormed(t: Tree, p: Path, inode: Inode)
    requires WellFormed(t) && p != [] && !HasBelow(t, p)
    ensures WellFormed(Staged(t, p, inode))
  {
    var s := Staged(t, p, inode);
    forall q, i | q in s && 0 < i < |q| ensures q[..i] in s && s[q[..i]] == Dir {
      if q == p || q in Parents(p) {
        ParentsAre(p, q);
        assert q[..i] == p[..i];
        assert p[..i] in Parents(p);
      } else {
        assert q[..i] in t && t[q[..i]] == Dir;
      }
    }
    forall q | q in s ensures q != [] {
      ParentsAre(p, q);
    }
  }

  lemma WithoutIsWellFormed(t: Tree, p: Path)
    requires WellFormed(t) && !HasBelow(t, p)
    ensures WellFormed(t - {p})
  {
    var s := t - {p};
    forall q, i | q in s && 0 < i < |q| ensures q[..i] in s && s[q[..i]] == Dir {
      assert q[..i] < q;
      assert q in t;
    }
  }

  lemma NothingBelowFile(t: Tree, p: Path)
    requires WellFormed(t) && p in t && t[p].File?
    ensures !HasBelow(t, p)
  {
    assert p != [];
    forall r | r in t ensures !(p < r) {
      PrefixIs(p, r);
    }
  }

  lemma PrefixIs(p: Path, r: Path)
    ensures p < r <==> |p| < |r| && r[..|p|] == p
  {
  }

  // ---- What the first loop keeps ---------------------------------------------------

  /** Staging after some at-risk files were placed: they are there, what was
    * there is as it was, and only directories above them are new. */
  ghost predicate PlacedOver(want: set<Path>, before: Tree, now: Tree) {
    && (forall p :: p in want ==> p in now && now[p].File?)
    && (forall q :: q in before && q !in want ==> q in now && now[q] == before[q])
    && (forall q :: q in now && q !in before && q !in want ==> now[q] == Dir && exists w :: w in want && q < w)
  }

  lemma FilesDoNotNest(local: Tree, p: Path, w: Path)
    requires WellFormed(local) && p in local && local[p].File? && w in local && local[w].File?
    ensures !(p < w)
  {
    NothingBelowFile(local, p);
  }

  /** Placing other files changes nothing for p. */
  lemma StageableUnaffected(p: Path, local: Tree, want: set<Path>, before: Tree, now: Tree)
    requires WellFormed(local) && WellFormed(now) && AllStageable(want, local, before) && PlacedOver(want, before, now)
    ensures Stageable(p, local, now) <==> Stageable(p, local, before)
  {
    if p in local && local[p].File? {
      forall w | w in want ensures !(p < w) && !(w < p) {
        FilesDoNotNest(local, p, w);
        FilesDoNotNest(local, w, p);
      }
      forall q | q in Parents(p) ensures q !in want {
        ParentsAre(p, q);
      }
      BelowUnaffected(p, want, before, now);
      if p in now && now[p].File? {
        NothingBelowFile(now, p);
      }
    }
  }

  lemma NotBetween(p: Path, r: Path, w: Path)
    requires p < r && !(p < w)
    ensures !(r < w)
  {
  }

  lemma BelowUnaffected(p: Path, want: set<Path>, before: Tree, now: Tree)
    requires PlacedOver(want, before, now)
    requires forall w :: w in want ==> !(p < w)
    ensures HasBelow(now, p) <==> HasBelow(before, p)
  {
    forall r | r in now && p < r ensures r in before {
      forall w | w in want ensures !(r < w) {
        NotBetween(p, r, w);
      }
    }
    forall r | r in before && p < r ensures r in now {
    }
  }

  lemma PlacedOneMore(p: Path, inode: Inode, local: Tree, want: set<Path>, before: Tree, now: Tree)
    requires WellFormed(local) && AllStageable(want, local, before) && p in local && local[p].File?
    requires PlacedOver(want, before, now) && Stageable(p, local, now)
    ensures PlacedOver(want + {p}, before, Staged(now, p, inode))
  {
    var after := Staged(now, p, inode);
    forall w | w in want ensures w in after && after[w].File? {
      FilesDoNotNest(local, w, p);
      ParentsAre(p, w);
    }
    forall q | q in after && q !in before && q !in want + {p} ensures after[q] == Dir && exists w :: w in want + {p} && q < w {
      ParentsAre(p, q);
      if q in now {
        var w :| w in want && q < w;
        assert w in want + {p};
      } else {
        assert p in want + {p};
      }
    }
    forall q | q in before && q !in want + {p} ensures q in after && after[q] == before[q] {
      assert q in Parents(p) ==> now[q] == Dir;
    }
  }

  ghost predicate AllStagedNow(want: set<Path>, local: Tree, staging: Tree, contents: map<Inode, string>) {
    forall w :: w in want ==> StagedNow(w, local, staging, contents)
  }

  function Names(atRisk: seq<Path>): set<Path> {
    set p | p in atRisk
  }

  lemma NamesGrow(atRisk: seq<Path>, k: nat)
    requires k < |atRisk|
    ensures Names(atRisk[..k + 1]) == Names(atRisk[..k]) + {atRisk[k]}
  {
    assert atRisk[..k + 1] == atRisk[..k] + [atRisk[k]];
  }

  /** Each can be staged, and the system links or copies it. */
  ghost predicate AllCanBe(atRisk: seq<Path>, local: Tree, staging: Tree, luck: Path -> Luck) {
    forall i :: 0 <= i < |atRisk| ==> Stageable(atRisk[i], local, staging) && luck(atRisk[i]) != Neither
  }

  ghost predicate AllStageable(want: set<Path>, local: Tree, staging: Tree) {
    forall w :: w in want ==> Stageable(w, local, staging)
  }

  lemma StagedNowStays(p: Path, inode: Inode, local: Tree, want: set<Path>, now: Tree, held: map<Inode, string>,
                       after: map<Inode, string>)
    requires WellFormed(local) && p in local && local[p].File?
    requires Untouched(held, after) && StagedNow(p, local, Staged(now, p, inode), after)
    requires AllStagedNow(want, local, now, held)
    ensures AllStagedNow(want + {p}, local, Staged(now, p, inode), after)
  {
    forall w | w in want ensures StagedNow(w, local, Staged(now, p, inode), after) {
      FilesDoNotNest(local, w, p);
      ParentsAre(p, w);
    }
  }

  /** Everything in want is placed over what staging held before. */
  ghost predicate Progress(want: set<Path>, local: Tree, before: Tree, now: Tree, contents: map<Inode, string>) {
    AllStageable(want, local, before) && PlacedOver(want, before, now) && AllStagedNow(want, local, now, contents)
  }

  lemma PlacedNext(p: Path, inode: Inode, local: Tree, want: set<Path>, before: Tree, now: Tree, held: map<Inode, string>,
                   after: map<Inode, string>)
    requires WellFormed(local) && Stageable(p, local, now)
    requires Stageable(p, local, before) && Progress(want, local, before, now, held)
    requires Untouched(held, after) && StagedNow(p, local, Staged(now, p, inode), after)
    ensures Progress(want + {p}, local, before, Staged(now, p, inode), after)
  {
    PlacedOneMore(p, inode, local, want, before, now);
    StagedNowStays(p, inode, local, want, now, held, after);
  }

  /** A marker directory, or an entry below one. */
  predicate IsMarked(p: Path, t: Tree) {
    p in t && (BelowMarker(p) || (t[p] == Dir && MARKER in p))
  }

  // ---- The sweep ---------------------------------------------------------------------

  /** Something the sweep leaves lies below d: a file, or a marker. */
  ghost predicate Holds(t: Tree, d: Path) {
    exists r :: r in t && d < r && (t[r].File? || MARKER in r)
  }

  /** Parents before what lies below them. */
  ghost predicate TopDown(dirs: seq<Path>) {
    forall i, j :: 0 <= i < j < |dirs| ==> !(dirs[j] < dirs[i]) && dirs[i] != dirs[j]
  }

  method Shortest(s: set<Path>) returns (p: Path)
    requires s != {}
    ensures p in s && forall q :: q in s ==> |p| <= |q|
  {
    p := Pick(s);
    var left := s - {p};
    while left != {}
      invariant left <= s && p in s && forall q :: q in s - left ==> |p| <= |q|
      decreases |left|
    {
      var q := Pick(left);
      left := left - {q};
      if |q| < |p| {
        p := q;
      }
    }
  }

  /** The directories of a walk, in the order it enters them. */
  method Walked(t: Tree) returns (dirs: seq<Path>)
    ensures TopDown(dirs) && forall d :: d in dirs <==> d in t && t[d] == Dir && MARKER !in d
  {
    dirs := [];
    var left := set d | d in t && t[d] == Dir && MARKER !in d;
    ghost var all := left;
    while left != {}
      invariant left <= all && TopDown(dirs)
      invariant forall d :: d in dirs <==> d in all && d !in left
      invariant forall d, q :: d in dirs && q in left ==> |d| <= |q|
      decreases |left|
    {
      var d := Shortest(left);
      assert forall i :: 0 <= i < |dirs| ==> dirs[i] in dirs;
      left := left - {d};
      dirs := dirs + [d];
    }
  }

  class Disk {
    var local: Tree
    var staging: Tree
    var contents: map<Inode, string>
    /** Beyond every inode in use. */
    var next: Inode

    ghost predicate Valid() reads this {
      && WellFormed(local) && WellFormed(staging)
      && Known(local, contents) && Known(staging, contents)
      && forall i :: i in contents ==> i < next
    }

    constructor (local: Tree, staging: Tree, contents: map<Inode, string>, next: Inode)
      requires WellFormed(local) && WellFormed(staging) && Known(local, contents) && Known(staging, contents)
      requires forall i :: i in contents ==> i < next
      ensures Valid() && this.local == local && this.staging == staging && this.contents == contents
    {
      this.local, this.staging, this.contents, this.next := local, staging, contents, next;
    }

    /** os.Remove on a staged path: a file or an empty directory goes. */
    method Remove(p: Path)
      requires Valid()
      modifies `staging
      ensures Valid()
      ensures staging == if HasBelow(old(staging), p) then old(staging) else old(staging) - {p}
    {
      if !(exists r :: r in staging && p < r) {
        WithoutIsWellFormed(staging, p);
        staging := staging - {p};
      }
    }

    /** Puts a file at p: an existing inode, or a new one. */
    method Put(p: Path, inode: Inode)
      requires Valid() && p != [] && !HasBelow(staging, p) && inode in contents
      modifies `staging
      ensures Valid() && staging == Staged(old(staging), p, inode)
    {
      StagedIsWellFormed(staging, p, inode);
      staging := Staged(staging, p, inode);
    }

    /** One at-risk file. */
    method Place(p: Path, luck: Luck) returns (ok: bool)
      requires Valid()
      modifies `staging, `contents, `next
      ensures Valid() && Untouched(old(contents), contents)
      ensures ok ==> Stageable(p, local, old(staging))
      ensures Stageable(p, local, old(staging)) && luck != Neither ==> ok
      ensures ok ==> StagedNow(p, local, staging, contents)
      ensures ok ==> staging == Staged(old(staging), p, staging[p].inode)
    {
      if p in local && p in staging && local[p].File? && staging[p] == local[p] {
        SameFileStays(p, local, staging);
        return true;
      }
      if exists q :: q in Parents(p) && q in staging && staging[q].File? {
        return false;
      }
      Remove(p);
      if p !in local {
        return false;
      }
      if HasBelow(staging, p) {
        BlockedBelow(p, local, old(staging));
        return false;
      }
      var inode := Fill(p, luck);
      Put(p, inode);
      ok := local[p].File? && luck != Neither;
      RemovedFirst(p, old(staging), inode);
    }

    /** The inode a new staged file gets: the local one, a copy, or a partial copy. */
    method Fill(p: Path, luck: Luck) returns (inode: Inode)
      requires Valid() && p in local
      modifies `contents, `next
      ensures Valid() && Untouched(old(contents), contents) && inode in contents
      ensures local[p].File? && luck != Neither ==> contents[inode] == contents[local[p].inode]
    {
      if local[p].File? && luck == Links {
        return local[p].inode;
      }
      inode := next;
      contents := contents[inode := if local[p].File? && luck == Copies then contents[local[p].inode] else ""];
      next := next + 1;
    }

    method SweepFiles(want: set<Path>)
      requires Valid()
      modifies `staging
      ensures Valid()
      ensures staging == map p | p in old(staging) && (old(staging)[p].File? ==> p in want || BelowMarker(p)) :: old(staging)[p]
    {
      var left := set p | p in staging && staging[p].File?;
      while left != {}
        invariant Valid() && left <= old(staging).Keys
        invariant forall p :: p in old(staging) && old(staging)[p] == Dir ==> p !in left
        invariant forall p :: p in staging ==> p in old(staging) && staging[p] == old(staging)[p]
        invariant forall p :: p in old(staging) && p in left ==> p in staging
        invariant forall p :: p in old(staging) && p !in left ==>
                    (p in staging <==> (old(staging)[p].File? ==> p in want || BelowMarker(p)))
        decreases |left|
      {
        var p := Pick(left);
        if !(p in want || BelowMarker(p)) {
          NothingBelowFile(staging, p);
          Remove(p);
        }
        left := left - {p};
      }
    }

    /** Removes directories left empty, the deepest first. */
    method SweepDirs()
      requires Valid()
      modifies `staging
      ensures Valid()
      ensures staging == map p | p in old(staging) && (old(staging)[p].File? || MARKER in p || Holds(old(staging), p)) :: old(staging)[p]
    {
      ghost var swept := staging;
      var dirs := Walked(staging);
      var i := |dirs|;
      assert Partly(swept, dirs[i..]) == swept;
      while i > 0
        invariant 0 <= i <= |dirs| && Valid()
        invariant staging == Partly(swept, dirs[i..])
      {
        i := i - 1;
        TriedOneMore(dirs, i, swept);
        if !HasBelow(staging, dirs[i]) {
          Remove(dirs[i]);
        }
      }
      assert dirs[0..] == dirs;
      AllTried(dirs, swept);
    }

    /** Removes every staged file that is not wanted, then the directories left empty. */
    method Sweep(want: set<Path>)
      requires Valid()
      modifies `staging
      ensures Valid()
      ensures forall p :: p in staging ==> p in old(staging) && staging[p] == old(staging)[p]
      ensures forall p :: p in old(staging) && old(staging)[p].File? ==> (p in staging <==> p in want || BelowMarker(p))
      ensures forall d :: d in old(staging) && old(staging)[d] == Dir ==> (d in staging <==> MARKER in d || Holds(staging, d))
    {
      SweepFiles(want);
      ghost var swept := staging;
      SweepDirs();
      HoldsAfter(swept, staging);
    }

    /** Place, with the files placed before it in want. */
    method PlaceNext(p: Path, luck: Luck, ghost want: set<Path>, ghost before: Tree) returns (ok: bool)
      requires Valid() && Progress(want, local, before, staging, contents)
      modifies `staging, `contents, `next
      ensures Valid() && Untouched(old(contents), contents)
      ensures ok ==> Progress(want + {p}, local, before, staging, contents)
      ensures Stageable(p, local, before) && luck != Neither ==> ok
    {
      StageableUnaffected(p, local, want, before, staging);
      ok := Place(p, luck);
      if ok {
        PlacedNext(p, staging[p].inode, local, want, before, old(staging), old(contents), contents);
      }
    }

    /** Places every at-risk file, up to the first that cannot be. */
    method PlaceAll(atRisk: seq<Path>, luck: Path -> Luck) returns (ok: bool, want: set<Path>)
      requires Valid()
      modifies `staging, `contents, `next
      ensures Valid() && Untouched(old(contents), contents)
      ensures ok ==> want == Names(atRisk) && Progress(want, local, old(staging), staging, contents)
      ensures AllCanBe(atRisk, local, old(staging), luck) ==> ok
    {
      want := {};
      ghost var before := staging;
      for k := 0 to |atRisk|
        invariant Valid() && Untouched(old(contents), contents)
        invariant want == Names(atRisk[..k])
        invariant Progress(want, local, before, staging, contents)
      {
        ok := PlaceNext(atRisk[k], luck(atRisk[k]), want, before);
        if !ok {
          return;
        }
        NamesGrow(atRisk, k);
        want := want + {atRisk[k]};
      }
      assert atRisk[..|atRisk|] == atRisk;
      ok := true;
    }

    /** Brings staging up to date with the at-risk names. It succeeds exactly when
      * each can be staged, if the system lets it link or copy; then staging holds
      * the at-risk files as they are now, and nothing else. */
    method MaintainStaging(atRisk: seq<Path>, luck: Path -> Luck) returns (ok: bool)
      requires Valid()
      modifies `staging, `contents, `next
      ensures Valid() && Untouched(old(contents), contents)
      ensures ok ==> forall p :: p in atRisk ==> Stageable(p, local, old(staging))
      ensures AllCanBe(atRisk, local, old(staging), luck) ==> ok
      ensures ok ==> forall p :: p in atRisk ==> StagedNow(p, local, staging, contents)
      ensures ok ==> forall p :: p in staging && staging[p].File? && !BelowMarker(p) ==> p in atRisk
      ensures ok ==> forall p :: IsMarked(p, old(staging)) && p !in atRisk ==>
                                 p in staging && staging[p] == old(staging)[p]
      ensures ok ==> forall d :: d in staging && staging[d] == Dir && MARKER !in d ==> Holds(staging, d)
      ensures ok && MarkersOnTop(old(staging)) && Unmarked(atRisk) ==> LeftByPass(local, staging, contents)
    {
      var want: set<Path>;
      ok, want := PlaceAll(atRisk, luck);
      if !ok {
        return;
      }
      ghost var placed := staging;
      Sweep(want);
      SweptRight(want, local, old(staging), placed, staging, contents);
      if MarkersOnTop(old(staging)) && Unmarked(atRisk) {
        MarkersStayOnTop(want, old(staging), placed);
        LeftRight(want, local, staging, contents);
      }
    }
  }

  lemma SweptRight(want: set<Path>, local: Tree, before: Tree, placed: Tree, now: Tree, contents: map<Inode, string>)
    requires PlacedOver(want, before, placed) && AllStagedNow(want, local, placed, contents)
    requires forall p :: p in now ==> p in placed && now[p] == placed[p]
    requires forall p :: p in placed && placed[p].File? ==> (p in now <==> p in want || BelowMarker(p))
    requires forall d :: d in placed && placed[d] == Dir ==> (d in now <==> MARKER in d || Holds(now, d))
    ensures AllStagedNow(want, local, now, contents)
    ensures forall p :: IsMarked(p, before) && p !in want ==> p in now && now[p] == before[p]
  {
    forall p | IsMarked(p, before) && p !in want ensures p in now {
      assert placed[p] == before[p];
    }
  }

  /** Staging after the directories in tried were tried. */
  ghost function Partly(swept: Tree, tried: seq<Path>): Tree {
    map p | p in swept && (p in tried ==> Holds(swept, p)) :: swept[p]
  }

  lemma TriedOneMore(dirs: seq<Path>, i: nat, swept: Tree)
    requires i < |dirs| && TopDown(dirs)
    requires forall d :: d in dirs <==> d in swept && swept[d] == Dir && MARKER !in d
    ensures var now := Partly(swept, dirs[i + 1..]);
            Partly(swept, dirs[i..]) == if HasBelow(now, dirs[i]) then now else now - {dirs[i]}
  {
    var now := Partly(swept, dirs[i + 1..]);
    KeptBelow(dirs, i, swept, now);
    assert dirs[i..] == [dirs[i]] + dirs[i + 1..];
  }

  lemma AllTried(dirs: seq<Path>, swept: Tree)
    requires forall d :: d in dirs <==> d in swept && swept[d] == Dir && MARKER !in d
    ensures Partly(swept, dirs) == map p | p in swept && (swept[p].File? || MARKER in p || Holds(swept, p)) :: swept[p]
  {
  }

  /** What is left below a directory after those below it were tried. */
  lemma KeptBelow(dirs: seq<Path>, i: nat, swept: Tree, now: Tree)
    requires i < |dirs| && TopDown(dirs)
    requires forall d :: d in dirs <==> d in swept && swept[d] == Dir && MARKER !in d
    requires now == Partly(swept, dirs[i + 1..])
    ensures HasBelow(now, dirs[i]) <==> Holds(swept, dirs[i])
    ensures dirs[i] in now
  {
    var d := dirs[i];
    assert d in dirs;
    if Holds(swept, d) {
      var r :| r in swept && d < r && (swept[r].File? || MARKER in r);
      assert r in now;
    }
    if HasBelow(now, d) {
      var r :| r in now && d < r;
      if swept[r] == Dir && MARKER !in r {
        var j :| 0 <= j < |dirs| && dirs[j] == r;
        assert j > i;
        assert r in dirs[i + 1..];
        var q :| q in swept && r < q && (swept[q].File? || MARKER in q);
        assert d < q;
      }
    }
  }

  lemma HoldsAfter(swept: Tree, now: Tree)
    requires now == map p | p in swept && (swept[p].File? || MARKER in p || Holds(swept, p)) :: swept[p]
    ensures forall d :: Holds(now, d) <==> Holds(swept, d)
  {
    forall d ensures Holds(now, d) <==> Holds(swept, d) {
      if Holds(swept, d) {
        var r :| r in swept && d < r && (swept[r].File? || MARKER in r);
        assert r in now;
      }
    }
  }

  lemma SameFileStays(p: Path, local: Tree, staging: Tree)
    requires WellFormed(staging) && p in local && local[p].File? && p in staging && staging[p].File?
    ensures Stageable(p, local, staging) && staging == Staged(staging, p, staging[p].inode)
  {
    forall q | q in Parents(p) ensures q in staging && staging[q] == Dir {
      ParentsAre(p, q);
      assert q == p[..|q|];
    }
  }

  lemma BlockedBelow(p: Path, local: Tree, staging: Tree)
    requires WellFormed(staging) && HasBelow(staging, p)
    ensures !Stageable(p, local, staging) || p == []
  {
    if p != [] {
      var r :| r in staging && p < r;
      assert p == r[..|p|];
    }
  }

  lemma RemovedFirst(p: Path, t: Tree, inode: Inode)
    ensures Staged(t - {p}, p, inode) == Staged(t, p, inode)
  {
  }

  // ---- From one pass to the next ---------------------------------------------------

  /** Markers are only at the top, where Syncthing puts its own. */
  ghost predicate MarkersOnTop(staging: Tree) {
    forall p :: p in staging && MARKER in p ==> p[0] == MARKER
  }

  ghost predicate Unmarked(atRisk: seq<Path>) {
    forall p :: p in atRisk ==> MARKER !in p
  }

  /** Staging as a successful pass leaves it. */
  ghost predicate LeftByPass(local: Tree, staging: Tree, contents: map<Inode, string>) {
    && WellFormed(staging) && MarkersOnTop(staging)
    && (forall p :: p in staging && staging[p].File? && !BelowMarker(p) ==> StagedNow(p, local, staging, contents))
    && (forall d :: d in staging && staging[d] == Dir && MARKER !in d ==> Holds(staging, d))
  }

  lemma MarkersStayOnTop(want: set<Path>, before: Tree, now: Tree)
    requires MarkersOnTop(before) && PlacedOver(want, before, now) && forall w :: w in want ==> MARKER !in w
    ensures MarkersOnTop(now)
  {
    forall p | p in now && p !in before ensures MARKER !in p {
      if p !in want {
        var w :| w in want && p < w;
        assert forall i :: 0 <= i < |p| ==> p[i] == w[i];
      }
    }
  }

  lemma LeftRight(want: set<Path>, local: Tree, staging: Tree, contents: map<Inode, string>)
    requires WellFormed(staging) && MarkersOnTop(staging) && AllStagedNow(want, local, staging, contents)
    requires forall p :: p in staging && staging[p].File? && !BelowMarker(p) ==> p in want
    requires forall d :: d in staging && staging[d] == Dir && MARKER !in d ==> Holds(staging, d)
    ensures LeftByPass(local, staging, contents)
  {
  }

  /** What is a file or a directory in both is the same kind in both. */
  ghost predicate KindsKept(before: Tree, now: Tree) {
    forall p :: p in before && p in now ==> (before[p].File? <==> now[p].File?)
  }

  /** After a successful pass, as long as no path changes between file and
    * directory, any listed file can be staged next, whatever was edited,
    * created, replaced or removed meanwhile. */
  lemma NextPassCanStage(p: Path, before: Tree, now: Tree, staging: Tree, contents: map<Inode, string>)
    requires WellFormed(before) && WellFormed(now) && LeftByPass(before, staging, contents) && KindsKept(before, now)
    requires Listed(now, p) && p[0] != MARKER
    ensures Stageable(p, now, staging)
  {
    forall q | q in Parents(p) && q in staging ensures staging[q] == Dir {
      ParentsAre(p, q);
      if staging[q].File? {
        PrefixIs(q, p);
        assert now[p[..|q|]] == Dir;
        StagedFileIsFile(q, before, staging, contents);
      }
    }
    if p in staging && staging[p] == Dir && HasBelow(staging, p) {
      StagedDirIsDir(p, before, staging, contents);
    }
  }

  lemma StagedFileIsFile(q: Path, before: Tree, staging: Tree, contents: map<Inode, string>)
    requires LeftByPass(before, staging, contents) && q in staging && staging[q].File? && q != [] && q[0] != MARKER
    ensures q in before && before[q].File?
  {
    assert MARKER !in q;
    assert StagedNow(q, before, staging, contents);
  }

  /** What is staged as a directory was one at the pass. */
  lemma StagedDirIsDir(p: Path, before: Tree, staging: Tree, contents: map<Inode, string>)
    requires WellFormed(before) && LeftByPass(before, staging, contents)
    requires p in staging && staging[p] == Dir && p[0] != MARKER
    ensures p in before && before[p] == Dir
  {
    var r :| r in staging && p < r && (staging[r].File? || MARKER in r);
    assert r[0] == p[0];
    assert MARKER !in r && StagedNow(r, before, staging, contents);
    PrefixIs(p, r);
    assert before[r[..|p|]] == Dir;
  }

  /** So a pass on what the status calls at risk succeeds exactly when no directory
    * here is still needed by every mirror, if the system links or copies. */
  lemma PassWorksIff(atRisk: seq<Path>, luck: Path -> Luck, before: Tree, now: Tree, staging: Tree, contents: map<Inode, string>,
                     mirrors: seq<Feed>)
    requires WellFormed(before) && WellFormed(now) && LeftByPass(before, staging, contents) && KindsKept(before, now)
    requires mirrors != [] && Names(atRisk) == AtRisk(now, mirrors) && forall p :: p in atRisk ==> luck(p) != Neither
    requires forall p :: p in atRisk && p in now && now[p].File? ==> Listed(now, p) && p[0] != MARKER
    ensures AllCanBe(atRisk, now, staging, luck) <==> forall d :: d in now && now[d] == Dir ==> !OnNoMirror(mirrors, d)
  {
    forall i | 0 <= i < |atRisk|
      ensures atRisk[i] in now && OnNoMirror(mirrors, atRisk[i])
      ensures Stageable(atRisk[i], now, staging) <==> now[atRisk[i]].File?
    {
      assert atRisk[i] in Names(atRisk);
      if now[atRisk[i]].File? {
        NextPassCanStage(atRisk[i], before, now, staging, contents);
      }
    }
    forall d | d in now && now[d] == Dir && OnNoMirror(mirrors, d) ensures exists i :: 0 <= i < |atRisk| && atRisk[i] == d {
      assert d in Names(atRisk);
    }
  }

  /** A staged file whose place here becomes a folder blocks every file in that
    * folder, and with it the whole pass. */
  lemma KindChangeBlocksStaging(stale: Inode, fresher: Inode)
    ensures var local: Tree := map[["a"] := Dir, ["a", "b"] := File(fresher)];
            var staging: Tree := map[["a"] := File(stale)];
            && WellFormed(local) && WellFormed(staging)
            && !Stageable(["a", "b"], local, staging)
  {
    assert ["a", "b"][..1] == ["a"];
    assert ["a"] in Parents(["a", "b"]);
  }

  /** Until something changes, the status after a successful pass is honest,
    * whatever the mirrors and the catcher then need. */
  lemma HonestAfterPass(local: Tree, staging: Tree, contents: map<Inode, string>, mirrors: seq<Feed>,
                        mirrorsHold: seq<Holdings>, catcher: Option<Catcher>, catcherHolds: Holdings, p: Path)
    requires WellFormed(local) && LeftByPass(local, staging, contents)
    requires Known(local, contents) && Known(staging, contents)
    requires |mirrors| == |mirrorsHold|
    requires forall i :: 0 <= i < |mirrors| ==> Accurate(mirrors[i].entries, mirrorsHold[i], local, contents)
    requires catcher.Some? ==> Accurate(catcher.value.feed.entries, catcherHolds, staging, contents)
    requires forall f :: f in ListFiles(local) ==> f[0] != MARKER
    requires p in ListFiles(local) - (AtRisk(local, mirrors) - Caught(local, staging, mirrors, catcher))
    ensures HeldAway(p, contents[local[p].inode], mirrorsHold, catcherHolds)
  {
    forall f | f in ListFiles(local) && f in staging
      ensures StagedNow(f, local, staging, contents)
    {
      if staging[f] == Dir {
        StagedDirIsDir(f, local, staging, contents);
      }
    }
    StatusIsHonestIff(local, staging, contents, mirrors, mirrorsHold, catcher, catcherHolds);
  }

  /** Between passes it may not be: a file replaced since it was staged is counted
    * as protected while no device holds it. */
  lemma StaleStagingHidesAChange(answers: nat -> bool)
    requires forall page: nat :: answers(page)
    ensures var f := ["f"];
            var contents: map<Inode, string> := map[1 := "old", 2 := "new"];
            var local: Tree := map[f := File(2)];
            var staging: Tree := map[f := File(1)];
            var mirrors := [Feed([NeedEntry(f, false)], answers)];
            var catcher := Some(Catcher(true, Feed([], answers)));
            var none: Holdings := map[];
            && Accurate(mirrors[0].entries, none, local, contents)
            && Accurate([], map[f := "old"], staging, contents)
            && AtRisk(local, mirrors) - Caught(local, staging, mirrors, catcher) == {}
            && f in ListFiles(local) && !HeldAway(f, "new", [none], map[f := "old"])
  {
    var f := ["f"];
    var e := NeedEntry(f, false);
    assert e in [e] && e.name in StillNeeds([e]);
    var local: Tree := map[f := File(2)];
    var mirrors := [Feed([e], answers)];
    assert AtRisk(local, mirrors) == {f};
    assert !(".stignore" <= "f");
  }
}
