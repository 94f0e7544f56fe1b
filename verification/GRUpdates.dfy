/** The database of grtags over any sequence of updates, from an empty one (src/GRTags.cpp). */
module GRUpdates {
  import opened GRParser
  import opened GRParses
  import opened GRTags
  import opened Locations

  const EMPTY := Database(map[], map[], map[])

  /** What an update meets with: the answers of the system, and the paths it visits. */
  datatype Tree = Tree(w: World, vs: seq<Visit>)

  // --- Honest times ---

  /** Files last modified when the first was there, or before, have the same contents in both. */
  ghost predicate SameUnlessNewer(a: World, b: World) {
    forall p :: b.modified(p) <= a.now ==> b.tokens(p) == a.tokens(p)
  }

  ghost predicate AreHonest(ts: seq<Tree>) {
    forall j, k :: 0 <= j < k < |ts| ==> SameUnlessNewer(ts[j].w, ts[k].w)
  }

  ghost predicate AreVisits(ts: seq<Tree>) {
    forall k :: 0 <= k < |ts| ==> Distinct(ts[k].vs) && IsParsedBy(ts[k].w)
  }

  lemma SameParse(a: World, b: World, p: Path, id: FileId)
    requires IsParsedBy(a) && IsParsedBy(b) && a.tokens(p) == b.tokens(p)
    ensures a.parse(p, id) == b.parse(p, id)
  {
    var x, y := a.parse(p, id), b.parse(p, id);
    assert Lexed(a.tokens(p)) && IsParseOf(a.tokens(p), id, x);
    assert Lexed(b.tokens(p)) && IsParseOf(b.tokens(p), id, y);
    OneParse(a.tokens(p), id, x, y);
  }

  // --- The sources that were parsed and not lost since ---

  /** Parsed by one of the first n updates; since then it has always existed, and every update
      that saved has visited it. */
  predicate IsKept(ts: seq<Tree>, fs: seq<Found>, n: nat, p: Path)
    requires n <= |ts| && n <= |fs|
  {
    n > 0 &&
    (p in fs[n - 1].pending
     || (IsKept(ts, fs, n - 1, p) && ts[n - 1].w.present(p)
         && (fs[n - 1].pending == [] || Visit(p, true) in ts[n - 1].vs)))
  }

  /** The table has the parse that this update has made of the path, under this id. */
  ghost predicate ParsedAs(w: World, p: Path, id: FileId, times: map<FileId, int>, parses: map<FileId, Entries>) {
    id in times && times[id] == w.now && id in parses && parses[id] == w.parse(p, id)
  }

  ghost predicate KnowsOf(ts: seq<Tree>, n: nat, p: Path, db: Database, parses: map<FileId, Entries>)
    requires n <= |ts|
  {
    p in db.paths && exists j :: 0 <= j < n && ParsedAs(ts[j].w, p, db.paths[p], db.times, parses)
  }

  /** What is kept is in the table, as it was when it was parsed. */
  ghost predicate Knows(ts: seq<Tree>, fs: seq<Found>, n: nat, db: Database, parses: map<FileId, Entries>)
    requires n <= |ts| && n <= |fs|
  {
    Holds(db, parses) && forall p {:trigger KnowsOf(ts, n, p, db, parses)} ::
      IsKept(ts, fs, n, p) ==> KnowsOf(ts, n, p, db, parses)
  }

  /** All about one update. */
  ghost predicate IsUpdate(t: Tree, before: Database, parses: map<FileId, Entries>, f: Found, after: Database,
                           now: map<FileId, Entries>)
  {
    && IdsAssigned(Remaining(before, t.w), t.vs, f.ids, f.last)
    && PendingAre(before.times, t.w, t.vs, f) && IsNext(before, t.w, t.vs, parses, f, after, now)
    && Holds(after, now)
    && (IsTableOfTree(t.w, t.vs, f.ids, after.symbols) <==>
          && CurrentAreThere(before.times, t.w, t.vs, f.ids, before.symbols)
          && (f.pending == [] ==> NothingElse(t.vs, f.ids, parses)))
  }

  lemma PendingIsKnown(ts: seq<Tree>, fs: seq<Found>, n: nat, before: Database, parses: map<FileId, Entries>,
                       after: Database, now: map<FileId, Entries>, p: Path)
    requires n < |ts| && n < |fs| && IsUpdate(ts[n], before, parses, fs[n], after, now) && p in fs[n].pending
    ensures KnowsOf(ts, n + 1, p, after, now)
  {
    var t, f := ts[n], fs[n];
    var i :| 0 <= i < |t.vs| && t.vs[i] == Visit(p, true) && !Current(before.times, f.ids, t.w.modified, p);
    assert SourceIsNext(before.times, t.w, t.vs[i], f.ids, parses, now);
    assert IsPending(f, f.ids[p]);
    assert ParsedAs(t.w, p, f.ids[p], after.times, now);
  }

  lemma UnsavedIsKnown(ts: seq<Tree>, fs: seq<Found>, n: nat, before: Database, parses: map<FileId, Entries>,
                       after: Database, now: map<FileId, Entries>, p: Path)
    requires n < |ts| && n < |fs| && IsUpdate(ts[n], before, parses, fs[n], after, now)
    requires fs[n].pending == [] && ts[n].w.present(p) && KnowsOf(ts, n, p, before, parses)
    ensures KnowsOf(ts, n + 1, p, after, now)
  {
    var j :| 0 <= j < n && ParsedAs(ts[j].w, p, before.paths[p], before.times, parses);
    assert ParsedAs(ts[j].w, p, after.paths[p], after.times, now);
  }

  lemma NotPending(f: Found, p: Path)
    requires p in f.ids && p !in f.pending && Injective(f.ids)
    ensures !IsPending(f, f.ids[p])
  {
  }

  lemma VisitedIsKnown(ts: seq<Tree>, fs: seq<Found>, n: nat, before: Database, parses: map<FileId, Entries>,
                       after: Database, now: map<FileId, Entries>, p: Path)
    requires n < |ts| && n < |fs| && IsUpdate(ts[n], before, parses, fs[n], after, now)
    requires fs[n].pending != [] && p !in fs[n].pending && Visit(p, true) in ts[n].vs
    requires ts[n].w.present(p) && KnowsOf(ts, n, p, before, parses)
    ensures KnowsOf(ts, n + 1, p, after, now)
  {
    var t, f := ts[n], fs[n];
    var i :| 0 <= i < |t.vs| && t.vs[i] == Visit(p, true);
    var j :| 0 <= j < n && ParsedAs(ts[j].w, p, before.paths[p], before.times, parses);
    assert p in Remaining(before, t.w) && f.ids[p] == before.paths[p];
    assert SourceIsNext(before.times, t.w, t.vs[i], f.ids, parses, now);
    NotPending(f, p);
    assert ParsedAs(ts[j].w, p, after.paths[p], after.times, now);
  }

  lemma KnowsNext(ts: seq<Tree>, fs: seq<Found>, n: nat, before: Database, parses: map<FileId, Entries>,
                  after: Database, now: map<FileId, Entries>)
    requires n < |ts| && n < |fs| && Knows(ts, fs, n, before, parses)
    requires IsUpdate(ts[n], before, parses, fs[n], after, now)
    ensures Knows(ts, fs, n + 1, after, now)
  {
    var m := n + 1;
    forall p | IsKept(ts, fs, m, p) ensures KnowsOf(ts, m, p, after, now) {
      if p in fs[n].pending {
        PendingIsKnown(ts, fs, n, before, parses, after, now, p);
      } else {
        assert KnowsOf(ts, n, p, before, parses);
        if fs[n].pending == [] {
          UnsavedIsKnown(ts, fs, n, before, parses, after, now, p);
        } else {
          VisitedIsKnown(ts, fs, n, before, parses, after, now, p);
        }
      }
    }
  }

  // --- When the table is that of the tree ---

  /** A source that has not been kept and is taken for current none the less: its id has a time
      that was left by something else, or from before it was lost. */
  predicate MeetsLeftover(ts: seq<Tree>, fs: seq<Found>, k: nat, times: map<FileId, int>, v: Visit)
    requires k < |ts| && k < |fs|
  {
    v.source && Current(times, fs[k].ids, ts[k].w.modified, v.path)
    && !(ts[k].w.present(v.path) && IsKept(ts, fs, k, v.path))
  }

  predicate NoLeftover(ts: seq<Tree>, fs: seq<Found>, k: nat, times: map<FileId, int>)
    requires k < |ts| && k < |fs|
  {
    forall i :: 0 <= i < |ts[k].vs| ==> !MeetsLeftover(ts, fs, k, times, ts[k].vs[i])
  }

  /** The table happens to be right about those sources. */
  ghost predicate LeftoversAreRight(ts: seq<Tree>, fs: seq<Found>, k: nat, db: Database)
    requires k < |ts| && k < |fs|
  {
    forall i :: 0 <= i < |ts[k].vs| && MeetsLeftover(ts, fs, k, db.times, ts[k].vs[i]) ==>
      SaysOfSource(ts[k].w, ts[k].vs[i], fs[k].ids, db.symbols)
  }

  lemma {:induction false} KeptIsRight(ts: seq<Tree>, fs: seq<Found>, k: nat, db: Database,
                                       parses: map<FileId, Entries>, v: Visit)
    requires k < |ts| && k < |fs| && AreHonest(ts) && AreVisits(ts) && Knows(ts, fs, k, db, parses)
    requires IdsAssigned(Remaining(db, ts[k].w), ts[k].vs, fs[k].ids, fs[k].last)
    requires Current(db.times, fs[k].ids, ts[k].w.modified, v.path)
    requires ts[k].w.present(v.path) && IsKept(ts, fs, k, v.path)
    ensures SaysOfSource(ts[k].w, v, fs[k].ids, db.symbols)
  {
    var w, p := ts[k].w, v.path;
    assert KnowsOf(ts, k, p, db, parses);
    var id := db.paths[p];
    var j :| 0 <= j < k && ParsedAs(ts[j].w, p, id, db.times, parses);
    assert p in Remaining(db, w) && fs[k].ids[p] == id;
    assert SameUnlessNewer(ts[j].w, w) && w.modified(p) <= ts[j].w.now;
    SameParse(ts[j].w, w, p, id);
  }

  lemma CurrentAreThereIff(ts: seq<Tree>, fs: seq<Found>, k: nat, db: Database, parses: map<FileId, Entries>)
    requires k < |ts| && k < |fs| && AreHonest(ts) && AreVisits(ts) && Knows(ts, fs, k, db, parses)
    requires IdsAssigned(Remaining(db, ts[k].w), ts[k].vs, fs[k].ids, fs[k].last)
    ensures CurrentAreThere(db.times, ts[k].w, ts[k].vs, fs[k].ids, db.symbols) <==> LeftoversAreRight(ts, fs, k, db)
  {
    var w, vs := ts[k].w, ts[k].vs;
    forall i | 0 <= i < |vs| && vs[i].source && Current(db.times, fs[k].ids, w.modified, vs[i].path)
      ensures SaysOfSource(w, vs[i], fs[k].ids, db.symbols) || MeetsLeftover(ts, fs, k, db.times, vs[i])
    {
      if !MeetsLeftover(ts, fs, k, db.times, vs[i]) {
        KeptIsRight(ts, fs, k, db, parses, vs[i]);
      }
    }
  }

  // --- Any sequence of updates ---

  /** The databases before and after each update, what it has found out, and the parses in the
      tables. The first database is empty. */
  ghost predicate IsHistory(ts: seq<Tree>, dbs: seq<Database>, fs: seq<Found>, ps: seq<map<FileId, Entries>>) {
    && |fs| <= |ts| && |dbs| == |ps| == |fs| + 1 && dbs[0] == EMPTY && ps[0] == map[]
    && forall k {:trigger fs[k]} :: 0 <= k < |fs| ==> IsUpdate(ts[k], dbs[k], ps[k], fs[k], dbs[k + 1], ps[k + 1])
  }

  lemma NothingIsKnown(ts: seq<Tree>, fs: seq<Found>)
    ensures Knows(ts, fs, 0, EMPTY, map[])
  {
  }

  lemma UpdateAt(ts: seq<Tree>, dbs: seq<Database>, fs: seq<Found>, ps: seq<map<FileId, Entries>>, k: nat)
    requires IsHistory(ts, dbs, fs, ps) && k < |fs|
    ensures IsUpdate(ts[k], dbs[k], ps[k], fs[k], dbs[k + 1], ps[k + 1])
  {
  }

  lemma {:induction false} HistoryKnows(ts: seq<Tree>, dbs: seq<Database>, fs: seq<Found>,
                                        ps: seq<map<FileId, Entries>>, n: nat)
    requires IsHistory(ts, dbs, fs, ps) && n <= |fs|
    ensures Knows(ts, fs, n, dbs[n], ps[n])
  {
    if n == 0 {
      NothingIsKnown(ts, fs);
    } else {
      var k := n - 1;
      HistoryKnows(ts, dbs, fs, ps, k);
      UpdateAt(ts, dbs, fs, ps, k);
      KnowsNext(ts, fs, k, dbs[k], ps[k], dbs[n], ps[n]);
    }
  }

  /** After any updates with honest times, the table an update leaves is that of its tree exactly
      if it happens to be right about the sources that meet with a leftover time and, if nothing
      was parsed, nothing was ever found in files that have gone. */
  lemma TableIsOfTreeIff(ts: seq<Tree>, dbs: seq<Database>, fs: seq<Found>, ps: seq<map<FileId, Entries>>, k: nat)
    requires AreHonest(ts) && AreVisits(ts) && IsHistory(ts, dbs, fs, ps) && k < |fs|
    ensures IsTableOfTree(ts[k].w, ts[k].vs, fs[k].ids, dbs[k + 1].symbols) <==>
      && LeftoversAreRight(ts, fs, k, dbs[k])
      && (fs[k].pending == [] ==> NothingElse(ts[k].vs, fs[k].ids, ps[k]))
  {
    HistoryKnows(ts, dbs, fs, ps, k);
    UpdateAt(ts, dbs, fs, ps, k);
    CurrentAreThereIff(ts, fs, k, dbs[k], ps[k]);
  }

  /** So every update that parses something, and takes nothing for current that was not kept,
      leaves the table of its tree. */
  lemma TableIsOfTree(ts: seq<Tree>, dbs: seq<Database>, fs: seq<Found>, ps: seq<map<FileId, Entries>>, k: nat)
    requires AreHonest(ts) && AreVisits(ts) && IsHistory(ts, dbs, fs, ps) && k < |fs|
    requires fs[k].pending != [] && NoLeftover(ts, fs, k, dbs[k].times)
    ensures IsTableOfTree(ts[k].w, ts[k].vs, fs[k].ids, dbs[k + 1].symbols)
  {
    TableIsOfTreeIff(ts, dbs, fs, ps, k);
  }

  lemma HistoryNext(ts: seq<Tree>, dbs: seq<Database>, fs: seq<Found>, ps: seq<map<FileId, Entries>>, db: Database,
                    f: Found, now: map<FileId, Entries>)
    requires IsHistory(ts, dbs, fs, ps) && |fs| < |ts|
    requires IsUpdate(ts[|fs|], dbs[|fs|], ps[|fs|], f, db, now)
    ensures IsHistory(ts, dbs + [db], fs + [f], ps + [now])
  {
    var fs', dbs', ps' := fs + [f], dbs + [db], ps + [now];
    forall k | 0 <= k < |fs'| ensures IsUpdate(ts[k], dbs'[k], ps'[k], fs'[k], dbs'[k + 1], ps'[k + 1]) {
      if k < |fs| {
        assert fs'[k] == fs[k];
      }
    }
  }

  /** Updates of an empty database, up to the first that would give out an id in use. */
  method UpdateAll(ts: seq<Tree>)
    returns (dbs: seq<Database>, fs: seq<Found>, ghost ps: seq<map<FileId, Entries>>)
    requires AreHonest(ts) && AreVisits(ts)
    ensures IsHistory(ts, dbs, fs, ps)
    ensures |fs| < |ts| ==> !IdsAreUnused(dbs[|fs|], ts[|fs|].w, ts[|fs|].vs)
    ensures forall k :: 0 <= k < |fs| && fs[k].pending != [] && NoLeftover(ts, fs, k, dbs[k].times) ==>
      IsTableOfTree(ts[k].w, ts[k].vs, fs[k].ids, dbs[k + 1].symbols)
  {
    dbs, fs, ps := [EMPTY], [], [map[]];
    for n := 0 to |ts|
      invariant IsHistory(ts, dbs, fs, ps) && |fs| == n
    {
      if !IdsAreUnused(dbs[n], ts[n].w, ts[n].vs) {
        break;
      }
      HistoryKnows(ts, dbs, fs, ps, n);
      ghost var now;
      var db, f;
      db, f, now := Run(dbs[n], ts[n].w, ts[n].vs, ps[n]);
      HistoryNext(ts, dbs, fs, ps, db, f, now);
      dbs, fs, ps := dbs + [db], fs + [f], ps + [now];
    }
    forall k | 0 <= k < |fs| && fs[k].pending != [] && NoLeftover(ts, fs, k, dbs[k].times)
      ensures IsTableOfTree(ts[k].w, ts[k].vs, fs[k].ids, dbs[k + 1].symbols)
    {
      TableIsOfTree(ts, dbs, fs, ps, k);
    }
  }

  // --- A source that an update does not visit ---

  lemma SecondId(a: Path, d: Path, ids: map<Path, FileId>, last: nat)
    requires a != d && IdsAssigned(map[a := 1], [Visit(d, true)], ids, last)
    ensures ids == map[a := 1, d := 2]
  {
    var ids0: map<Path, FileId> := map[a := 1];
    var vs := [Visit(d, true)];
    assert ids0.Keys == {a} && NewCount(ids0, vs, 1) == 1 by {
      assert NewCount(ids0, vs, 0) == 0;
    }
    assert vs[0].path in ids;
    forall p | p in ids ensures p == a || p == d {
    }
  }

  /** Only d was parsed: the table does not know the file with id 1 any more, but its time is left. */
  lemma OnlySecondIsThere(a: Path, d: Path, w: World, before: Database, parses: map<FileId, Entries>, f: Found,
                          after: Database, now: map<FileId, Entries>)
    requires a != d && before.times == map[1 := 10] && f.ids == map[a := 1, d := 2]
    requires PendingAre(before.times, w, [Visit(d, true)], f)
    requires IsNext(before, w, [Visit(d, true)], parses, f, after, now)
    ensures after.paths == f.ids && after.times == map[1 := 10, 2 := w.now] && 1 !in now
  {
    var vs := [Visit(d, true)];
    assert vs[0] == Visit(d, true) && d in f.pending;
    assert a !in f.pending;
    assert IsPending(f, f.ids[d]);
    forall id ensures IsPending(f, id) <==> id == 2 {
    }
    assert !InSource(vs, f.ids, 1);
  }

  lemma BothAreVisited(a: Path, d: Path, v: World, db: Database)
    requires a != d && v.present(a) && v.present(d) && db.paths == map[a := 1, d := 2]
    ensures Remaining(db, v) == db.paths && IdsAreUnused(db, v, [Visit(a, true), Visit(d, true)])
  {
    assert Remaining(db, v) == db.paths && db.paths.Keys == {a, d};
    var vs := [Visit(a, true), Visit(d, true)];
    assert NewCount(db.paths, vs, 1) == 0;
  }

  lemma BothTakenForCurrent(a: Path, d: Path, times: map<FileId, int>, v: World, f: Found, last: nat)
    requires a != d && IdsAssigned(map[a := 1, d := 2], [Visit(a, true), Visit(d, true)], f.ids, last)
    requires times.Keys == {1, 2} && times[1] != 0 && times[2] != 0
    requires v.modified(a) <= times[1] && v.modified(d) <= times[2]
    requires PendingAre(times, v, [Visit(a, true), Visit(d, true)], f)
    ensures f.pending == [] && f.ids[a] == 1
  {
    NothingPending(times, v, [Visit(a, true), Visit(d, true)], f);
  }

  lemma FirstIsLeft(a: Path, d: Path, w: World, db: Database)
    requires a != d && w.present(a) && db.paths == map[a := 1]
    ensures Remaining(db, w) == db.paths && IdsAreUnused(db, w, [Visit(d, true)])
  {
    assert Remaining(db, w) == db.paths && db.paths.Keys == {a};
    var vs := [Visit(d, true)];
    assert NewCount(db.paths, vs, 0) == 0;
  }

  lemma FirstHolds(a: Path, w: World, db: Database)
    requires IsParsedBy(w) && db == Database(map[a := 1], map[1 := 10], w.parse(a, 1))
    ensures Holds(db, map[1 := w.parse(a, 1)])
  {
    assert OnlyIn(w.parse(a, 1), 1);
  }

  method VisitSecond(a: Path, d: Path, w: World, before: Database, ghost parses: map<FileId, Entries>)
    returns (db: Database, ghost now: map<FileId, Entries>)
    requires a != d && w.present(a) && IsParsedBy(w) && Holds(before, parses)
    requires before.paths == map[a := 1] && before.times == map[1 := 10]
    ensures Holds(db, now) && 1 !in now && db.paths == map[a := 1, d := 2] && db.times == map[1 := 10, 2 := w.now]
  {
    var vs := [Visit(d, true)];
    FirstIsLeft(a, d, w, before);
    var f;
    db, f, now := Run(before, w, vs, parses);
    SecondId(a, d, f.ids, f.last);
    OnlySecondIsThere(a, d, w, before, parses, f, db, now);
  }

  method VisitBoth(a: Path, d: Path, v: World, db: Database, ghost parses: map<FileId, Entries>)
    returns (after: Database, f: Found)
    requires a != d && v.present(a) && v.present(d) && IsParsedBy(v) && !SaysNothing(v.parse(a, 1), 1)
    requires db.paths == map[a := 1, d := 2] && db.times.Keys == {1, 2} && db.times[1] != 0 && db.times[2] != 0
    requires v.modified(a) <= db.times[1] && v.modified(d) <= db.times[2]
    requires Holds(db, parses) && 1 !in parses
    ensures f.pending == [] && a in f.ids && f.ids[a] == 1
    ensures !IsTableOfTree(v, [Visit(a, true), Visit(d, true)], f.ids, after.symbols)
  {
    var vs := [Visit(a, true), Visit(d, true)];
    BothAreVisited(a, d, v, db);
    ghost var now;
    after, f, now := Run(db, v, vs, parses);
    BothTakenForCurrent(a, d, db.times, v, f, f.last);
    SaysNotOfSource(v, vs[0], f.ids, db.symbols, parses);
  }

  /** An update that does not visit a, because a filter has taken it out, and parses d: what the
      table had about a goes, but not the time. The next update visits both, takes a for current,
      and does not parse it. */
  method SkippedIsLost(a: Path, d: Path, w: World, v: World) returns (after: Database, f: Found)
    requires a != d && w.present(a) && v.present(a) && v.present(d) && IsParsedBy(w) && IsParsedBy(v)
    requires v.modified(a) <= 10 && w.now != 0 && v.modified(d) <= w.now && !SaysNothing(v.parse(a, 1), 1)
    ensures f.pending == [] && a in f.ids && f.ids[a] == 1
    ensures !IsTableOfTree(v, [Visit(a, true), Visit(d, true)], f.ids, after.symbols)
  {
    var before := Database(map[a := 1], map[1 := 10], w.parse(a, 1));
    ghost var parses := map[1 := w.parse(a, 1)];
    FirstHolds(a, w, before);
    var db;
    ghost var now;
    db, now := VisitSecond(a, d, w, before, parses);
    after, f := VisitBoth(a, d, v, db, now);
  }
}
