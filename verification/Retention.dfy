/** The two time-based clean-ups of held data: PruneVersions
  * (agent/internal/mirror/versions.go) and CleanupOrphans
  * (agent/internal/mirror/catcher.go). Time is in seconds. */
module Retention {
  import opened Prelude

  type Time = int

  const DAY: Time := 24 * 3600
  const KEEP_ALL: Time := 7 * DAY
  const KEEP_DAILY: Time := 30 * DAY

  // ---- Versions -----------------------------------------------------------

  /** One file under .stversions: a version of file, or something else. A
    * version's path is its file and timestamp, so neither repeats. */
  datatype Entry = Version(file: string, at: Time) | Other(path: string)

  /** The local calendar day of a moment. */
  type Calendar = Time -> int

  /** Older than a week, not older than 30 days. */
  predicate Aging(v: Entry, now: Time) {
    v.Version? && KEEP_ALL < now - v.at <= KEEP_DAILY
  }

  /** No aging version of the same file and day is newer. */
  ghost predicate NewestOfDay(v: Entry, all: set<Entry>, now: Time, day: Calendar)
    requires v.Version?
  {
    forall u :: u in all && Aging(u, now) && u.file == v.file && day(u.at) == day(v.at) ==> u.at <= v.at
  }

  /** The retention policy. */
  ghost predicate Keeps(v: Entry, all: set<Entry>, now: Time, day: Calendar) {
    v.Other? || now - v.at <= KEEP_ALL || (Aging(v, now) && NewestOfDay(v, all, now, day))
  }

  ghost function Kept(all: set<Entry>, now: Time, day: Calendar): set<Entry> {
    set v | v in all && Keeps(v, all, now, day)
  }

  ghost predicate NewestFirst(times: seq<Time>) {
    forall i, j :: 0 <= i < j < |times| ==> times[i] > times[j]
  }

  lemma InsertedIsSorted(sorted: seq<Time>, i: nat, t: Time)
    requires i <= |sorted| && NewestFirst(sorted)
    requires (i > 0 ==> sorted[i - 1] > t) && (i < |sorted| ==> t > sorted[i])
    ensures NewestFirst(sorted[..i] + [t] + sorted[i..])
  {
    var r := sorted[..i] + [t] + sorted[i..];
    assert forall k :: 0 <= k < i ==> r[k] == sorted[k] >= sorted[i - 1];
    assert forall k :: i < k < |r| ==> r[k] == sorted[k - 1] <= sorted[i];
    assert r[i] == t;
  }

  lemma InsertedHas(sorted: seq<Time>, i: nat, t: Time, u: Time)
    requires i <= |sorted|
    ensures u in sorted[..i] + [t] + sorted[i..] <==> u in sorted || u == t
  {
    assert sorted == sorted[..i] + sorted[i..];
  }

  method InsertNewestFirst(sorted: seq<Time>, t: Time) returns (r: seq<Time>)
    requires NewestFirst(sorted) && t !in sorted
    ensures NewestFirst(r) && forall u :: u in r <==> u in sorted || u == t
  {
    var i := 0;
    while i < |sorted| && sorted[i] > t
      invariant 0 <= i <= |sorted| && (i > 0 ==> sorted[i - 1] > t)
    {
      i := i + 1;
    }
    r := sorted[..i] + [t] + sorted[i..];
    InsertedIsSorted(sorted, i, t);
    forall u {
      InsertedHas(sorted, i, t, u);
    }
  }

  /** sort.Slice by time, newest first; no two versions of a file share a time. */
  method SortNewestFirst(times: set<Time>) returns (sorted: seq<Time>)
    ensures NewestFirst(sorted) && forall t :: t in sorted <==> t in times
  {
    sorted := [];
    var left := times;
    while left != {}
      invariant left <= times && NewestFirst(sorted)
      invariant forall t :: t in sorted <==> t in times - left
      decreases |left|
    {
      var t := Pick(left);
      sorted := InsertNewestFirst(sorted, t);
      left := left - {t};
    }
  }

  /** What is left after the versions of file made at the tried times were looked at. */
  ghost function PrunedTo(all: set<Entry>, file: string, tried: seq<Time>, now: Time, day: Calendar): set<Entry> {
    set v | v in all && (v.Other? || v.file != file || v.at !in tried || Keeps(v, all, now, day))
  }

  lemma TriedOneMore(all: set<Entry>, file: string, tried: seq<Time>, t: Time, now: Time, day: Calendar)
    requires t !in tried && Version(file, t) in all
    ensures var v := Version(file, t);
            var before := PrunedTo(all, file, tried, now, day);
            && v in before
            && PrunedTo(all, file, tried + [t], now, day) == if Keeps(v, all, now, day) then before else before - {v}
  {
  }

  class Versions {
    /** What .stversions holds. */
    var entries: set<Entry>

    constructor (entries: set<Entry>)
      ensures this.entries == entries
    {
      this.entries := entries;
    }

    /** Trims one file's versions, newest first. */
    method PruneFile(file: string, times: seq<Time>, now: Time, day: Calendar) returns (removed: nat)
      requires NewestFirst(times)
      requires forall t :: t in times <==> Version(file, t) in entries
      modifies this
      ensures entries == set v | v in old(entries) && (v.Other? || v.file != file || Keeps(v, old(entries), now, day))
      ensures removed == |old(entries)| - |entries|
    {
      removed := 0;
      var keptDay: set<int> := {};
      var i := 0;
      while i < |times|
        invariant 0 <= i <= |times|
        invariant entries == PrunedTo(old(entries), file, times[..i], now, day)
        invariant forall d :: d in keptDay <==> DaySeen(file, times, i, now, day, d)
        invariant removed == |old(entries)| - |entries|
      {
        var t := times[i];
        var v := Version(file, t);
        var age := now - t;
        var keep := false;
        assert v in old(entries);
        NewestMeansFirst(file, times, i, old(entries), now, day);
        DaySeenGrows(file, times, i, now, day);
        if age <= KEEP_ALL {
          keep := true;
        } else if age <= KEEP_DAILY {
          if day(t) !in keptDay {
            keptDay := keptDay + {day(t)};
            keep := true;
          }
        }
        assert keep == Keeps(v, old(entries), now, day);
        assert times[..i + 1] == times[..i] + [t];
        TriedOneMore(old(entries), file, times[..i], t, now, day);
        if !keep {
          entries := entries - {v};
          removed := removed + 1;
        }
        i := i + 1;
      }
      assert times[..i] == times;
      assert entries == set v | v in old(entries) && (v.Other? || v.file != file || Keeps(v, old(entries), now, day));
    }

    /** PruneVersions: file by file, in whatever order the map hands them out. */
    method Prune(now: Time, day: Calendar) returns (removed: nat)
      modifies this
      ensures entries == Kept(old(entries), now, day)
      ensures removed == |old(entries)| - |entries|
    {
      removed := 0;
      var files := set v | v in entries && v.Version? :: v.file;
      ghost var done: set<string> := {};
      while files != {}
        invariant files !! done
        invariant forall v :: v in old(entries) && v.Version? ==> v.file in files || v.file in done
        invariant entries == set v | v in old(entries) && (v.Other? || v.file !in done || Keeps(v, old(entries), now, day))
        invariant removed == |old(entries)| - |entries|
        decreases |files|
      {
        var file :| file in files;
        var times := set v | v in entries && v.Version? && v.file == file :: v.at;
        var sorted := SortNewestFirst(times);
        ghost var before := entries;
        forall v | v in before && v.Version? && v.file == file
          ensures Keeps(v, before, now, day) == Keeps(v, old(entries), now, day)
        {
          assert forall u: Entry :: u.Version? && u.file == file ==> (u in before <==> u in old(entries));
        }
        var n := PruneFile(file, sorted, now, day);
        removed := removed + n;
        files, done := files - {file}, done + {file};
      }
    }
  }

  /** Some aging version among the first n falls on day d. */
  ghost predicate DaySeen(file: string, times: seq<Time>, n: nat, now: Time, day: Calendar, d: int)
    requires n <= |times|
  {
    exists k :: 0 <= k < n && Aging(Version(file, times[k]), now) && day(times[k]) == d
  }

  lemma DaySeenGrows(file: string, times: seq<Time>, i: nat, now: Time, day: Calendar)
    requires i < |times|
    ensures forall d :: DaySeen(file, times, i + 1, now, day, d) <==>
                        DaySeen(file, times, i, now, day, d) || (Aging(Version(file, times[i]), now) && d == day(times[i]))
  {
  }

  /** An aging version is the newest of its day exactly when no aging version
    * of that day comes before it. */
  lemma NewestMeansFirst(file: string, times: seq<Time>, i: nat, all: set<Entry>, now: Time, day: Calendar)
    requires i < |times| && NewestFirst(times) && forall t :: t in times <==> Version(file, t) in all
    ensures NewestOfDay(Version(file, times[i]), all, now, day) <==> !DaySeen(file, times, i, now, day, day(times[i]))
  {
    var v := Version(file, times[i]);
    if DaySeen(file, times, i, now, day, day(times[i])) {
      var k :| 0 <= k < i && Aging(Version(file, times[k]), now) && day(times[k]) == day(times[i]);
      assert times[k] in times;
      assert Version(file, times[k]) in all;
    }
  }

  /** Pruning at t1 and again at t2 leaves what pruning once at t2 leaves, even
    * when new versions of any age arrive in between. */
  lemma PruneTwiceIsPruneOnce(all: set<Entry>, arrived: set<Entry>, t1: Time, t2: Time, day: Calendar)
    requires t1 <= t2
    ensures Kept(Kept(all, t1, day) + arrived, t2, day) == Kept(all + arrived, t2, day)
  {
    var left := Kept(all, t1, day) + arrived;
    forall v | v in all + arrived && v.Version?
      ensures v in Kept(left, t2, day) <==> v in Kept(all + arrived, t2, day)
    {
      if v in left && Aging(v, t2) && NewestOfDay(v, left, t2, day) {
        NewestAmongAll(all, arrived, t1, t2, day, v);
      }
      if v in all && Aging(v, t2) && NewestOfDay(v, all + arrived, t2, day) && Aging(v, t1) {
        assert NewestOfDay(v, all, t1, day);
      }
    }
  }

  /** A version still the newest of its day among what an earlier pruning left
    * is the newest among everything: what the earlier pruning dropped had a
    * newer version of its own day. */
  lemma NewestAmongAll(all: set<Entry>, arrived: set<Entry>, t1: Time, t2: Time, day: Calendar, v: Entry)
    requires t1 <= t2 && v.Version? && Aging(v, t2)
    requires NewestOfDay(v, Kept(all, t1, day) + arrived, t2, day)
    ensures NewestOfDay(v, all + arrived, t2, day)
  {
    forall u | u in all + arrived && Aging(u, t2) && u.file == v.file && day(u.at) == day(v.at)
      ensures u.at <= v.at
    {
      if u in all && u.at > v.at {
        var w := NewestFrom(all, t1, day, u);
        assert w in Kept(all, t1, day) + arrived;
        assert Aging(w, t2);
      }
    }
  }

  /** From any version, the newest kept one of its day at least as new. */
  lemma {:induction false} NewestFrom(all: set<Entry>, now: Time, day: Calendar, u: Entry) returns (w: Entry)
    requires u in all && u.Version? && now - u.at <= KEEP_DAILY
    ensures w in Kept(all, now, day) && w.Version? && w.file == u.file && day(w.at) == day(u.at) && w.at >= u.at
    ensures w == u || Aging(w, now)
    decreases now - u.at
  {
    if Keeps(u, all, now, day) {
      w := u;
    } else {
      var newer :| newer in all && Aging(newer, now) && newer.file == u.file && day(newer.at) == day(u.at) && newer.at > u.at;
      w := NewestFrom(all, now, day, newer);
    }
  }

  /** A life of held versions: new ones arriving, prunings now and then. */
  datatype Moment = Arrives(v: Entry) | Pruned(now: Time)

  ghost function Live(start: set<Entry>, ms: seq<Moment>, day: Calendar): set<Entry> {
    if ms == [] then start
    else
      var past, m := Live(start, ms[..|ms| - 1], day), ms[|ms| - 1];
      if m.Arrives? then past + {m.v} else Kept(past, m.now, day)
  }

  function Everything(start: set<Entry>, ms: seq<Moment>): set<Entry> {
    if ms == [] then start
    else
      var past, m := Everything(start, ms[..|ms| - 1]), ms[|ms| - 1];
      if m.Arrives? then past + {m.v} else past
  }

  /** No pruning in ms happens after now. */
  predicate AllBy(ms: seq<Moment>, now: Time) {
    forall i :: 0 <= i < |ms| && ms[i].Pruned? ==> ms[i].now <= now
  }

  /** However often pruning ran before, and whatever arrived in between, pruning
    * now leaves exactly what one pruning of everything that ever arrived leaves. */
  lemma {:induction false} HowOftenDoesNotMatter(start: set<Entry>, ms: seq<Moment>, now: Time, day: Calendar)
    requires AllBy(ms, now)
    ensures Kept(Live(start, ms, day), now, day) == Kept(Everything(start, ms), now, day)
  {
    if ms != [] {
      var past, m := ms[..|ms| - 1], ms[|ms| - 1];
      HowOftenDoesNotMatter(start, past, now, day);
      var live, all := Live(start, past, day), Everything(start, past);
      if m.Arrives? {
        PruneTwiceIsPruneOnce(live, {m.v}, now, now, day);
        PruneTwiceIsPruneOnce(all, {m.v}, now, now, day);
      } else {
        PruneTwiceIsPruneOnce(live, {}, m.now, now, day);
        assert Kept(live, m.now, day) + {} == Kept(live, m.now, day) && live + {} == live;
      }
    }
  }

  /** Pruning again at the same moment changes nothing. */
  lemma PruneIsIdempotent(all: set<Entry>, now: Time, day: Calendar)
    ensures Kept(Kept(all, now, day), now, day) == Kept(all, now, day)
  {
    PruneTwiceIsPruneOnce(all, {}, now, now, day);
    assert Kept(all, now, day) + {} == Kept(all, now, day) && all + {} == all;
  }

  /** The policy in plain numbers: a week of everything, then one version a day,
    * its last, until thirty days; what is no version is left alone. */
  lemma KeptVersionsAre(all: set<Entry>, now: Time, day: Calendar, file: string, at: Time)
    ensures Version(file, at) in Kept(all, now, day)
            <==> && Version(file, at) in all
                 && (|| now - at <= 604800
                     || (now - at <= 2592000
                         && forall u :: Version(file, u) in all && 604800 < now - u <= 2592000 && day(u) == day(at) ==> u <= at))
    ensures forall path :: Other(path) in Kept(all, now, day) <==> Other(path) in all
  {
    if forall u :: Version(file, u) in all && 604800 < now - u <= 2592000 && day(u) == day(at) ==> u <= at {
      assert NewestOfDay(Version(file, at), all, now, day);
    }
  }

  /** Of each day between a week and thirty days ago that has versions of a file,
    * exactly one is left. */
  lemma OneVersionADay(all: set<Entry>, now: Time, day: Calendar, file: string, at: Time) returns (left: Time)
    requires Version(file, at) in all && 604800 < now - at <= 2592000
    ensures Version(file, left) in Kept(all, now, day) && day(left) == day(at) && at <= left && 604800 < now - left
    ensures forall u :: Version(file, u) in Kept(all, now, day) && 604800 < now - u && day(u) == day(at) ==> u == left
  {
    var w := NewestFrom(all, now, day, Version(file, at));
    left := w.at;
    forall u | Version(file, u) in Kept(all, now, day) && 604800 < now - u && day(u) == day(at) ensures u == left {
      assert Aging(Version(file, u), now) && Aging(w, now);
    }
  }

  // ---- Orphans ----------------------------------------------------------------

  const FOLDER_PREFIX := "casper-"

  /** The folders under held/, each with the time on its orphan marker, if any. */
  type Held = map<string, Option<Time>>

  predicate Casper(id: string) {
    FOLDER_PREFIX <= id
  }

  predicate Doomed(held: Held, wanted: set<string>, grace: Time, now: Time, id: string)
    requires id in held
  {
    Casper(id) && id !in wanted && held[id].Some? && now - held[id].value >= grace
  }

  function Marked(mark: Option<Time>, wanted: bool, now: Time): Option<Time> {
    if wanted then None else if mark.None? then Some(now) else mark
  }

  /** What one pass of CleanupOrphans leaves. */
  function AfterPass(held: Held, wanted: set<string>, grace: Time, now: Time): Held {
    map id | id in held && !Doomed(held, wanted, grace, now, id) ::
      if Casper(id) then Marked(held[id], id in wanted, now) else held[id]
  }

  /** A pass that has yet to look at the folders in left. */
  function PartPass(held: Held, left: set<string>, wanted: set<string>, grace: Time, now: Time): Held {
    map id | id in held && (id in left || !Doomed(held, wanted, grace, now, id)) ::
      if id !in left && Casper(id) then Marked(held[id], id in wanted, now) else held[id]
  }

  lemma PartPassAdvances(held: Held, left: set<string>, wanted: set<string>, grace: Time, now: Time, id: string)
    requires id in left && id in held
    ensures var before, after := PartPass(held, left, wanted, grace, now), PartPass(held, left - {id}, wanted, grace, now);
            && before[id] == held[id]
            && after == if Doomed(held, wanted, grace, now, id) then before - {id}
                        else before[id := if Casper(id) then Marked(held[id], id in wanted, now) else held[id]]
  {
  }

  /** What one pass does to each folder: a wanted one loses its marker, an unwanted
    * one gets one or, at least grace after its marker, goes; others are not looked at. */
  lemma PassDoes(held: Held, wanted: set<string>, grace: Time, now: Time, id: string)
    requires id in held
    ensures var after := AfterPass(held, wanted, grace, now);
            && (!(FOLDER_PREFIX <= id) ==> id in after && after[id] == held[id])
            && (FOLDER_PREFIX <= id && id in wanted ==> id in after && after[id] == None)
            && (FOLDER_PREFIX <= id && id !in wanted && held[id] == None ==> id in after && after[id] == Some(now))
            && (FOLDER_PREFIX <= id && id !in wanted && held[id].Some? ==>
                  (id in after <==> now - held[id].value < grace) && (id in after ==> after[id] == held[id]))
    ensures AfterPass(held, wanted, grace, now).Keys <= held.Keys
  {
  }

  class HeldFolders {
    var held: Held

    constructor (held: Held)
      ensures this.held == held
    {
      this.held := held;
    }

    method CleanupOrphans(wanted: set<string>, grace: Time, now: Time) returns (deleted: seq<string>)
      modifies this
      ensures held == AfterPass(old(held), wanted, grace, now)
      ensures forall id :: id in deleted <==> id in old(held) && id !in held
    {
      deleted := [];
      var entries := held.Keys;
      assert PartPass(held, entries, wanted, grace, now) == held;
      while entries != {}
        invariant entries <= old(held).Keys
        invariant held == PartPass(old(held), entries, wanted, grace, now)
        invariant forall id :: id in deleted <==> id in old(held).Keys - entries && Doomed(old(held), wanted, grace, now, id)
        decreases |entries|
      {
        var id := Pick(entries);
        PartPassAdvances(old(held), entries, wanted, grace, now, id);
        entries := entries - {id};
        if Casper(id) {
          if id in wanted {
            held := held[id := None];
          } else if held[id].None? {
            held := held[id := Some(now)];
          } else if now - held[id].value >= grace {
            held := held - {id};
            deleted := deleted + [id];
          } else {
            assert held == held[id := held[id]];
          }
        } else {
          assert held == held[id := held[id]];
        }
      }
      assert PartPass(old(held), {}, wanted, grace, now) == AfterPass(old(held), wanted, grace, now);
    }
  }

  /** A life of the held directory: reconciling makes folders, passes clean up. */
  datatype HeldMoment = Appears(id: string) | Cleaned(wanted: set<string>, now: Time)

  function HeldAfter(ms: seq<HeldMoment>, grace: Time): Held {
    if ms == [] then map[]
    else
      var past, m := HeldAfter(ms[..|ms| - 1], grace), ms[|ms| - 1];
      match m
      case Appears(id) => if id in past then past else past[id := None]
      case Cleaned(wanted, now) => AfterPass(past, wanted, grace, now)
  }

  /** id is unwanted at every pass from the from-th moment on. */
  predicate UnwantedSince(ms: seq<HeldMoment>, from: int, id: string) {
    forall k :: 0 <= from <= k < |ms| && ms[k].Cleaned? ==> id !in ms[k].wanted
  }

  /** A marker's time is that of a pass since which the folder was never wanted. */
  lemma {:induction false} MarkerTellsTheTruth(ms: seq<HeldMoment>, grace: Time, id: string) returns (m: nat)
    requires Casper(id) && id in HeldAfter(ms, grace) && HeldAfter(ms, grace)[id].Some?
    ensures m < |ms| && ms[m].Cleaned? && HeldAfter(ms, grace)[id] == Some(ms[m].now) && UnwantedSince(ms, m, id)
  {
    var past := ms[..|ms| - 1];
    var before := HeldAfter(past, grace);
    if id in before && before[id].Some? {
      m := MarkerTellsTheTruth(past, grace, id);
      assert forall k :: 0 <= k < |past| ==> past[k] == ms[k];
    } else {
      m := |ms| - 1;
    }
  }

  /** A folder a pass deletes was unwanted at that pass and at every pass since
    * one at least the grace period earlier; a wanted folder stays. */
  lemma DeletedOnlyAfterGrace(ms: seq<HeldMoment>, grace: Time, wanted: set<string>, now: Time, id: string)
    requires id in HeldAfter(ms, grace)
    ensures var all := ms + [Cleaned(wanted, now)];
            id !in HeldAfter(all, grace) ==>
              && id !in wanted
              && exists m :: 0 <= m < |ms| && ms[m].Cleaned? && now - ms[m].now >= grace && UnwantedSince(all, m, id)
  {
    var all := ms + [Cleaned(wanted, now)];
    assert all[..|all| - 1] == ms;
    if id !in HeldAfter(all, grace) {
      var m := MarkerTellsTheTruth(ms, grace, id);
      assert forall k :: 0 <= k < |ms| ==> all[k] == ms[k];
      assert UnwantedSince(all, m, id);
    }
  }

  /** The passes' clock never goes back. */
  predicate Forward(ms: seq<HeldMoment>) {
    forall j, k :: 0 <= j < k < |ms| && ms[j].Cleaned? && ms[k].Cleaned? ==> ms[j].now <= ms[k].now
  }

  /** While a folder survives and stays unwanted, its marker is no younger than
    * the first of those passes. */
  lemma {:induction false} MarkerIsOldEnough(ms: seq<HeldMoment>, from: nat, grace: Time, id: string)
    requires Casper(id) && from < |ms| && ms[from].Cleaned? && Forward(ms) && UnwantedSince(ms, from, id)
    requires forall n :: from <= n <= |ms| ==> id in HeldAfter(ms[..n], grace)
    ensures id in HeldAfter(ms, grace) && HeldAfter(ms, grace)[id].Some? && HeldAfter(ms, grace)[id].value <= ms[from].now
    decreases |ms|
  {
    var past := ms[..|ms| - 1];
    assert ms[..|ms|] == ms;
    if from < |past| {
      assert forall k :: 0 <= k < |past| ==> past[k] == ms[k];
      assert forall n :: from <= n <= |past| ==> past[..n] == ms[..n];
      MarkerIsOldEnough(past, from, grace, id);
    } else {
      assert ms[..from] == past;
      var before := HeldAfter(past, grace);
      if before[id].Some? {
        var m := MarkerTellsTheTruth(past, grace, id);
        assert past[m] == ms[m];
      }
    }
  }

  /** A folder unwanted at every pass for the grace period does not outlive it:
    * at some moment from then on it was gone. */
  lemma UnwantedIsDeletedInTheEnd(ms: seq<HeldMoment>, from: nat, grace: Time, id: string)
    requires Casper(id) && from < |ms| - 1 && ms[from].Cleaned? && Forward(ms) && UnwantedSince(ms, from, id)
    requires ms[|ms| - 1].Cleaned? && ms[|ms| - 1].now - ms[from].now >= grace
    ensures exists n :: from <= n <= |ms| && id !in HeldAfter(ms[..n], grace)
  {
    assert ms[..|ms|] == ms;
    if forall n :: from <= n <= |ms| ==> id in HeldAfter(ms[..n], grace) {
      var past := ms[..|ms| - 1];
      assert forall k :: 0 <= k < |past| ==> past[k] == ms[k];
      assert forall n :: from <= n <= |past| ==> past[..n] == ms[..n];
      MarkerIsOldEnough(past, from, grace, id);
      assert false;
    }
  }
}
