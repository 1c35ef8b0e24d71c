/** How an owner's daemon reports which changes are protected
  * (agent/internal/mirror/status.go). */
module Protection {
  import opened Prelude

  /** A path below a folder, by components. */
  type Path = seq<string>

  type Inode = nat

  datatype Node = File(inode: Inode) | Dir

  type Tree = map<Path, Node>

  /** Everything above an entry is a directory. */
  ghost predicate WellFormed(t: Tree) {
    forall p :: p in t ==> p != [] && forall i :: 0 < i < |p| ==> p[..i] in t && t[p[..i]] == Dir
  }

  // ---- What one device still needs ---------------------------------------------

  const PAGE: nat := 2000

  datatype NeedEntry = NeedEntry(name: Path, deleted: bool)

  /** Syncthing's answers about one device and folder: the full list, cut into
    * pages, and whether the request for a page is answered. */
  datatype Feed = Feed(entries: seq<NeedEntry>, answers: nat -> bool)

  function LastPage(feed: Feed): nat {
    |feed.entries| / PAGE + 1
  }

  ghost predicate Answered(feed: Feed) {
    forall page: nat :: 1 <= page <= LastPage(feed) ==> feed.answers(page)
  }

  /** The names on the list that are not deletions. */
  ghost function StillNeeds(entries: seq<NeedEntry>): set<Path> {
    set e | e in entries && !e.deleted :: e.name
  }

  lemma StillNeedsAppend(a: seq<NeedEntry>, e: NeedEntry)
    ensures StillNeeds(a + [e]) == StillNeeds(a) + (if e.deleted then {} else {e.name})
  {
    var all := a + [e];
    assert forall x :: x in all <==> x in a || x == e;
    forall n ensures n in StillNeeds(all) <==> n in StillNeeds(a) || (!e.deleted && n == e.name) {
      if n in StillNeeds(a) {
        var x :| x in a && !x.deleted && x.name == n;
        assert x in all;
      }
    }
  }

  function Least(a: nat, b: nat): nat {
    if a < b then a else b
  }

  /** Pages one to n. */
  function UpTo(n: nat): seq<nat> {
    seq(n, k requires 0 <= k < n => k + 1)
  }

  /** All pages, whatever their boundaries; asked lists the requests made. */
  method Needed(feed: Feed) returns (r: Option<set<Path>>, asked: seq<nat>)
    ensures r.Some? <==> Answered(feed)
    ensures r.Some? ==> r.value == StillNeeds(feed.entries) && asked == UpTo(LastPage(feed))
    ensures r.None? ==> 1 <= |asked| <= LastPage(feed) && asked == UpTo(|asked|) && !feed.answers(|asked|)
                        && forall k: nat :: 1 <= k < |asked| ==> feed.answers(k)
  {
    var out: set<Path> := {};
    var page: nat := 1;
    var from: nat := 0;
    asked := [];
    assert feed.entries[..0] == [];
    while true
      invariant 1 <= page <= LastPage(feed) && from == (page - 1) * PAGE <= |feed.entries|
      invariant forall k: nat :: 1 <= k < page ==> feed.answers(k)
      invariant out == StillNeeds(feed.entries[..from]) && asked == UpTo(page - 1)
      decreases LastPage(feed) - page
    {
      asked := asked + [page];
      assert asked == UpTo(page);
      if !feed.answers(page) {
        return None, asked;
      }
      var to := Least(from + PAGE, |feed.entries|);
      for i := from to to
        invariant out == StillNeeds(feed.entries[..i])
      {
        var e := feed.entries[i];
        StillNeedsAppend(feed.entries[..i], e);
        assert feed.entries[..i + 1] == feed.entries[..i] + [e];
        if !e.deleted {
          out := out + {e.name};
        }
      }
      if to - from < PAGE {
        assert feed.entries[..to] == feed.entries;
        return Some(out), asked;
      }
      page := page + 1;
      from := to;
    }
  }

  // ---- One folder's status ----------------------------------------------------------

  predicate HiddenName(name: string) {
    name == ".stfolder" || name == ".stversions"
  }

  /** listFiles skips Syncthing's own directories and .stignore files. */
  predicate Listed(t: Tree, p: Path) {
    && p in t && t[p].File? && p != []
    && (forall i :: 0 <= i < |p| - 1 ==> !HiddenName(p[i]))
    && !(".stignore" <= p[0])
  }

  function ListFiles(t: Tree): set<Path> {
    set p | p in t && Listed(t, p)
  }

  /** Every mirror still needs it. */
  ghost predicate OnNoMirror(mirrors: seq<Feed>, name: Path) {
    forall i :: 0 <= i < |mirrors| ==> name in StillNeeds(mirrors[i].entries)
  }

  /** The names the status counts as at risk. */
  ghost function AtRisk(local: Tree, mirrors: seq<Feed>): set<Path> {
    if mirrors == [] then ListFiles(local) else set n | n in local && OnNoMirror(mirrors, n)
  }

  datatype Catcher = Catcher(connected: bool, feed: Feed)

  /** At-risk names the catcher is taken to hold. */
  ghost function Caught(local: Tree, staging: Tree, mirrors: seq<Feed>, catcher: Option<Catcher>): set<Path> {
    if catcher.Some? && catcher.value.connected && Answered(catcher.value.feed) then
      set n | n in AtRisk(local, mirrors) && n in staging && n !in StillNeeds(catcher.value.feed.entries)
    else {}
  }

  datatype Status = Status(localFiles: nat, atRiskFiles: nat, unprotectedFiles: nat, unprotectedOldest: int)

  /** The oldest modification time of some names, 0 when there are none. */
  ghost predicate IsOldest(oldest: int, names: set<Path>, modified: Path -> int) {
    if names == {} then oldest == 0
    else (exists n :: n in names && modified(n) == oldest) && forall n :: n in names ==> oldest <= modified(n)
  }

  /** The at-risk names among the mirrors' needs. */
  method Shared(mirrors: seq<Feed>) returns (r: Option<set<Path>>)
    ensures r.Some? <==> forall i :: 0 <= i < |mirrors| ==> Answered(mirrors[i])
    ensures r.Some? && mirrors != [] ==> forall n :: n in r.value <==> OnNoMirror(mirrors, n)
  {
    var atRisk: set<Path> := {};
    for i := 0 to |mirrors|
      invariant forall k :: 0 <= k < i ==> Answered(mirrors[k])
      invariant i > 0 ==> forall n :: n in atRisk <==> OnNoMirror(mirrors[..i], n)
    {
      var need, _ := Needed(mirrors[i]);
      if need.None? {
        return None;
      }
      assert forall n :: OnNoMirror(mirrors[..i + 1], n) <==> OnNoMirror(mirrors[..i], n) && n in need.value by {
        forall n ensures OnNoMirror(mirrors[..i + 1], n) <==> OnNoMirror(mirrors[..i], n) && n in need.value {
          NeededByOneMore(mirrors, i, n);
        }
      }
      if i == 0 {
        atRisk := need.value;
      } else {
        var left := atRisk;
        ghost var all := atRisk;
        while left != {}
          invariant left <= all
          invariant atRisk == set n | n in all && (n in left || n in need.value)
          decreases |left|
        {
          var name := Pick(left);
          left := left - {name};
          if name !in need.value {
            atRisk := atRisk - {name};
          }
        }
      }
    }
    assert mirrors[..|mirrors|] == mirrors;
    r := Some(atRisk);
  }

  lemma NeededByOneMore(mirrors: seq<Feed>, i: nat, n: Path)
    requires i < |mirrors|
    ensures OnNoMirror(mirrors[..i + 1], n) <==> OnNoMirror(mirrors[..i], n) && n in StillNeeds(mirrors[i].entries)
  {
    var more := mirrors[..i + 1];
    assert more[i] == mirrors[i];
    assert forall k :: 0 <= k < i ==> more[k] == mirrors[..i][k];
  }

  method Catch(risk: set<Path>, staging: Tree, catcher: Option<Catcher>) returns (caught: set<Path>)
    ensures catcher.None? || !Answered(catcher.value.feed) || !catcher.value.connected ==> caught == {}
    ensures catcher.Some? && Answered(catcher.value.feed) && catcher.value.connected ==>
              caught == set n | n in risk && n in staging && n !in StillNeeds(catcher.value.feed.entries)
  {
    caught := {};
    if catcher.Some? {
      var need, _ := Needed(catcher.value.feed);
      if need.Some? {
        var left := risk;
        while left != {}
          invariant left <= risk
          invariant caught == set n | n in risk - left && n in staging && n !in need.value && catcher.value.connected
          decreases |left|
        {
          var rel := Pick(left);
          left := left - {rel};
          if rel in staging && rel !in need.value && catcher.value.connected {
            caught := caught + {rel};
          }
        }
      }
    }
  }

  ghost predicate AllDated(names: set<Path>, modified: Path -> int) {
    forall n :: n in names ==> modified(n) > 0
  }

  lemma OldestGrows(oldest: int, names: set<Path>, modified: Path -> int, n: Path)
    requires AllDated(names, modified) ==> IsOldest(oldest, names, modified)
    ensures AllDated(names + {n}, modified) ==>
              IsOldest(if oldest == 0 || modified(n) < oldest then modified(n) else oldest, names + {n}, modified)
  {
    assert n in names + {n};
  }

  method Tally(risk: set<Path>, caught: set<Path>, modified: Path -> int) returns (count: nat, oldest: int)
    ensures count == |risk - caught|
    ensures AllDated(risk - caught, modified) ==> IsOldest(oldest, risk - caught, modified)
  {
    count, oldest := 0, 0;
    var left := risk;
    ghost var done: set<Path> := {};
    while left != {}
      invariant left <= risk && forall n :: n in done <==> n in risk && n !in left && n !in caught
      invariant count == |done|
      invariant AllDated(done, modified) ==> IsOldest(oldest, done, modified)
      decreases |left|
    {
      var rel := Pick(left);
      if rel !in caught {
        OldestGrows(oldest, done, modified, rel);
        done := done + {rel};
        count := count + 1;
        if oldest == 0 || modified(rel) < oldest {
          oldest := modified(rel);
        }
      }
      left := left - {rel};
    }
    assert done == risk - caught;
  }

  /** Failed when a mirror's needs cannot be had. A file's modification time
    * counts as the oldest only if it is after 1970. */
  method OwnedStatus(local: Tree, modified: Path -> int, staging: Tree, mirrors: seq<Feed>, catcher: Option<Catcher>)
      returns (st: Option<Status>, risk: set<Path>)
    ensures st.Some? <==> forall i :: 0 <= i < |mirrors| ==> Answered(mirrors[i])
    ensures st.None? ==> risk == {}
    ensures st.Some? ==>
              var unprotected := AtRisk(local, mirrors) - Caught(local, staging, mirrors, catcher);
              && risk == AtRisk(local, mirrors)
              && st.value.localFiles == |ListFiles(local)|
              && st.value.atRiskFiles == |AtRisk(local, mirrors)|
              && st.value.unprotectedFiles == |unprotected|
              && (AllDated(unprotected, modified) ==> IsOldest(st.value.unprotectedOldest, unprotected, modified))
  {
    risk := {};
    var shared := Shared(mirrors);
    if shared.None? {
      return None, {};
    }
    var files := ListFiles(local);
    var atRisk := shared.value;
    if |mirrors| == 0 {
      atRisk := files;
    }
    risk := set n | n in atRisk && n in local;
    assert risk == AtRisk(local, mirrors);
    var caught := Catch(risk, staging, catcher);
    assert caught == Caught(local, staging, mirrors, catcher);
    var count, oldest := Tally(risk, caught, modified);
    st := Some(Status(|files|, |risk|, count, oldest));
  }

  /** The lists behind the numbers: every file but those in Syncthing's own
    * directories and its ignore files; what no mirror has; and of that, what lies
    * in staging and a connected catcher, asked successfully, no longer needs. */
  lemma ListsAre(local: Tree, staging: Tree, mirrors: seq<Feed>, catcher: Option<Catcher>, n: Path)
    ensures n in ListFiles(local)
            <==> && n in local && local[n] != Dir && n != [] && !(".stignore" <= n[0])
                 && !(exists i :: 0 <= i < |n| - 1 && (n[i] == ".stfolder" || n[i] == ".stversions"))
    ensures n in AtRisk(local, mirrors)
            <==> if |mirrors| == 0 then n in ListFiles(local)
                 else n in local && forall i :: 0 <= i < |mirrors| ==> NeedEntry(n, false) in mirrors[i].entries
    ensures n in Caught(local, staging, mirrors, catcher)
            <==> && n in AtRisk(local, mirrors) && n in staging
                 && catcher.Some? && catcher.value.connected && NeedEntry(n, false) !in catcher.value.feed.entries
                 && forall page: nat :: 1 <= page <= |catcher.value.feed.entries| / 2000 + 1 ==> catcher.value.feed.answers(page)
  {
    forall i | 0 <= i < |mirrors| ensures n in StillNeeds(mirrors[i].entries) <==> NeedEntry(n, false) in mirrors[i].entries {
      NeededIsListed(mirrors[i].entries, n);
    }
    if catcher.Some? {
      NeededIsListed(catcher.value.feed.entries, n);
    }
  }

  lemma NeededIsListed(entries: seq<NeedEntry>, n: Path)
    ensures n in StillNeeds(entries) <==> NeedEntry(n, false) in entries
  {
    if NeedEntry(n, false) in entries {
      var e := NeedEntry(n, false);
      assert e in entries && !e.deleted && e.name == n;
    }
  }

  // ---- What the numbers are worth -------------------------------------------------------

  /** With mirrors, the at-risk names are exactly the files every mirror needs
    * unless every mirror still needs a directory that exists. */
  lemma AtRiskAreFilesIff(local: Tree, mirrors: seq<Feed>)
    requires mirrors != []
    ensures AtRisk(local, mirrors) == (set n | n in local && local[n].File? && OnNoMirror(mirrors, n))
            <==> forall d :: d in local && local[d] == Dir ==> !OnNoMirror(mirrors, d)
  {
    var files := set n | n in local && local[n].File? && OnNoMirror(mirrors, n);
    if d :| d in local && local[d] == Dir && OnNoMirror(mirrors, d) {
      assert d in AtRisk(local, mirrors) && d !in files;
    }
  }

  /** A new empty folder counts as a file at risk. */
  lemma NewFolderCountsAsFile(answers: nat -> bool)
    ensures var local: Tree := map[["new"] := Dir];
            var mirrors := [Feed([NeedEntry(["new"], false)], answers)];
            ListFiles(local) == {} && AtRisk(local, mirrors) == {["new"]}
  {
    var e := NeedEntry(["new"], false);
    assert e in [e] && e.name in StillNeeds([e]);
  }

  /** What a device stores under each name. */
  type Holdings = map<Path, string>

  /** A device still needs exactly the files it does not hold as they are here. */
  ghost predicate Accurate(entries: seq<NeedEntry>, held: Holdings, here: Tree, contents: map<Inode, string>) {
    forall p :: p in here && here[p].File? && here[p].inode in contents ==>
      (p in StillNeeds(entries) <==> !(p in held && held[p] == contents[here[p].inode]))
  }

  ghost predicate HeldAway(p: Path, content: string, mirrorsHold: seq<Holdings>, catcherHolds: Holdings) {
    || (exists i :: 0 <= i < |mirrorsHold| && p in mirrorsHold[i] && mirrorsHold[i][p] == content)
    || (p in catcherHolds && catcherHolds[p] == content)
  }

  /** The staged copy is what the file holds now. */
  predicate StagedNow(p: Path, local: Tree, staging: Tree, contents: map<Inode, string>) {
    && p in local && local[p].File? && p in staging && staging[p].File?
    && local[p].inode in contents && staging[p].inode in contents
    && contents[local[p].inode] == contents[staging[p].inode]
  }

  lemma NotAtRiskIsMirrored(p: Path, local: Tree, contents: map<Inode, string>, mirrors: seq<Feed>, mirrorsHold: seq<Holdings>)
    requires |mirrors| == |mirrorsHold|
    requires forall i :: 0 <= i < |mirrors| ==> Accurate(mirrors[i].entries, mirrorsHold[i], local, contents)
    requires Listed(local, p) && local[p].inode in contents
    ensures p !in AtRisk(local, mirrors) <==>
            exists i :: 0 <= i < |mirrorsHold| && p in mirrorsHold[i] && mirrorsHold[i][p] == contents[local[p].inode]
  {
    if mirrors != [] && p !in AtRisk(local, mirrors) {
      var i :| 0 <= i < |mirrors| && p !in StillNeeds(mirrors[i].entries);
      assert p in mirrorsHold[i];
    }
  }

  /** The status is honest exactly when the staged copies it trusts are current:
    * every file it does not count as unprotected is then on some mirror or on the
    * catcher, as it is now. */
  lemma StatusIsHonestIff(local: Tree, staging: Tree, contents: map<Inode, string>, mirrors: seq<Feed>,
                          mirrorsHold: seq<Holdings>, catcher: Option<Catcher>, catcherHolds: Holdings)
    requires |mirrors| == |mirrorsHold|
    requires forall i :: 0 <= i < |mirrors| ==> Accurate(mirrors[i].entries, mirrorsHold[i], local, contents)
    requires catcher.Some? ==> Accurate(catcher.value.feed.entries, catcherHolds, staging, contents)
    requires forall p :: p in local && local[p].File? ==> local[p].inode in contents
    requires forall p :: p in staging && staging[p].File? ==> staging[p].inode in contents
    requires forall p :: p in ListFiles(local) && p in staging ==> staging[p].File?
    ensures (forall p :: p in ListFiles(local) - (AtRisk(local, mirrors) - Caught(local, staging, mirrors, catcher)) ==>
               HeldAway(p, contents[local[p].inode], mirrorsHold, catcherHolds))
            <==> forall p :: p in ListFiles(local) * Caught(local, staging, mirrors, catcher) ==>
                   StagedNow(p, local, staging, contents)
  {
    var caught := Caught(local, staging, mirrors, catcher);
    forall p | p in ListFiles(local) - (AtRisk(local, mirrors) - caught)
      ensures HeldAway(p, contents[local[p].inode], mirrorsHold, catcherHolds)
              <==> p !in caught || StagedNow(p, local, staging, contents)
    {
      NotAtRiskIsMirrored(p, local, contents, mirrors, mirrorsHold);
    }
  }
}
