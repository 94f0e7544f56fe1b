/** Bringing the symbol database of grtags up to date (src/GRTags.cpp): loading it, visiting the
    tree, parsing what is new or stale, and saving the difference. */
module GRTags {
  import opened GRParser
  import opened GRParses
  import opened Locations
  import opened Options

  type Path = string

  /** The three kinds of keys of the database: a path and its id, an id and the time its file was
      parsed, a symbol name and its locations. */
  datatype Database = Database(paths: map<Path, FileId>, times: map<FileId, int>, symbols: Entries)

  // --- What the symbol table must hold ---

  /** The table holds exactly what the parses of these files have found, and no empty values. */
  ghost predicate IsUnion(symbols: Entries, parses: map<FileId, Entries>) {
    && (forall n, l :: At(symbols, n, l) == if l.fileId in parses then At(parses[l.fileId], n, l) else None)
    && NoneEmpty(symbols)
  }

  // --- Saving ---

  /** The old value about clean files, the new one otherwise. */
  ghost predicate SavedValue(was: map<Location, bool>, found: map<Location, bool>, dirty: set<FileId>,
                             value: map<Location, bool>) {
    && (forall l :: l in value <==> (l in was && l.fileId !in dirty) || l in found)
    && (forall l :: l in value ==> value[l] == if l in was && l.fileId !in dirty then was[l] else found[l])
  }

  ghost predicate SavedSymbols(before: Entries, found: Entries, dirty: set<FileId>, after: Entries) {
    forall n :: SavedValue(ValueAt(before, n), ValueAt(found, n), dirty, ValueAt(after, n))
  }

  /** What becomes of the value of one key: the locations in dirty files go, unless they were
      found again, and those found come in. It says whether anything has changed. */
  method SaveValue(was: map<Location, bool>, found: map<Location, bool>, dirty: set<FileId>)
    returns (value: map<Location, bool>, modified: bool)
    ensures SavedValue(was, found, dirty, value)
    ensures modified <==> value != was
  {
    value, modified := was, false;
    var todo := was.Keys;
    while todo != {}
      invariant todo <= was.Keys
      invariant forall l :: l in value <==> l in was && (l in todo || !Outdated(l, was, found, dirty))
      invariant forall l :: l in value ==> value[l] == was[l]
      invariant modified <==> value != was
    {
      var l :| l in todo;
      todo := todo - {l};
      if Outdated(l, was, found, dirty) {
        value := value - {l};
        modified := true;
        assert l in was && l !in value;
      }
    }
    ghost var kept := value;
    todo := found.Keys;
    while todo != {}
      invariant todo <= found.Keys
      invariant forall l :: l in value <==> l in kept || (l in found && l !in todo)
      invariant forall l :: l in value ==> value[l] == if l in kept then kept[l] else found[l]
      invariant modified <==> value != was
    {
      var l :| l in todo;
      todo := todo - {l};
      if l !in value {
        value := value[l := found[l]];
        modified := true;
        assert l in was ==> was[l] != found[l];
      }
    }
  }

  predicate Outdated(l: Location, was: map<Location, bool>, found: map<Location, bool>, dirty: set<FileId>)
    requires l in was
  {
    l.fileId in dirty && (l !in found || found[l] != was[l])
  }

  predicate SameAt(a: Entries, b: Entries, n: string) {
    (n in a <==> n in b) && (n in a ==> a[n] == b[n])
  }

  /** The keys for which this is done have their saved values, the others are as before. */
  ghost predicate Progress(before: Entries, found: Entries, dirty: set<FileId>, todo: set<string>, after: Entries) {
    forall n {:trigger ValueAt(after, n)} ::
      if n in before && n !in todo then SavedValue(before[n], ValueAt(found, n), dirty, ValueAt(after, n))
      else SameAt(before, after, n)
  }

  ghost predicate WrittenIffChanged(before: Entries, after: Entries, written: set<string>) {
    forall n :: n in written <==> !SameAt(before, after, n)
  }

  /** One round of the loop over the keys of the database. */
  method SaveKey(before: Entries, found: Entries, dirty: set<FileId>, ghost todo: set<string>, after: Entries,
                 ghost written: set<string>, n: string, newValue: map<Location, bool>)
    returns (after': Entries, ghost written': set<string>)
    requires NoneEmpty(before) && NoneEmpty(after) && n in before && n in todo && newValue == ValueAt(found, n)
    requires Progress(before, found, dirty, todo, after) && WrittenIffChanged(before, after, written)
    ensures NoneEmpty(after') && Progress(before, found, dirty, todo - {n}, after')
      && WrittenIffChanged(before, after', written')
  {
    after', written' := after, written;
    assert ValueAt(after, n) == before[n] && SameAt(before, after, n);
    var value, modified := SaveValue(before[n], newValue, dirty);
    if modified {
      written' := written + {n};
      after' := if value == map[] then after - {n} else after[n := value];
    }
    assert ValueAt(after', n) == value;
    ProgressStep(before, found, dirty, todo, after, after', n);
  }

  lemma ProgressStep(before: Entries, found: Entries, dirty: set<FileId>, todo: set<string>, after: Entries,
                     after': Entries, n: string)
    requires Progress(before, found, dirty, todo, after) && n in before && n in todo
    requires forall m :: m != n ==> SameAt(after, after', m)
    requires SavedValue(before[n], ValueAt(found, n), dirty, ValueAt(after', n))
    ensures Progress(before, found, dirty, todo - {n}, after')
  {
    forall m
      ensures if m in before && m !in todo - {n}
              then SavedValue(before[m], ValueAt(found, m), dirty, ValueAt(after', m))
              else SameAt(before, after', m)
    {
      if m != n {
        assert SameAt(after, after', m) && ValueAt(after', m) == ValueAt(after, m);
      }
    }
  }

  lemma ProgressStarts(before: Entries, found: Entries, dirty: set<FileId>)
    ensures Progress(before, found, dirty, before.Keys, before)
  {
    forall n ensures SameAt(before, before, n) {
    }
  }

  /** The symbol part of save(), in Update mode. A key is written exactly if its value changes. */
  method SaveSymbols(before: Entries, found: Entries, dirty: set<FileId>)
    returns (after: Entries, ghost written: set<string>)
    requires NoneEmpty(before) && NoneEmpty(found)
    ensures SavedSymbols(before, found, dirty, after)
    ensures NoneEmpty(after) && WrittenIffChanged(before, after, written)
  {
    var symbols := found;
    after, written := before, {};
    ProgressStarts(before, found, dirty);
    var todo := before.Keys;
    while todo != {}
      invariant todo <= before.Keys
      invariant symbols == found - (before.Keys - todo)
      invariant NoneEmpty(after) && Progress(before, found, dirty, todo, after)
        && WrittenIffChanged(before, after, written)
    {
      var n :| n in todo;
      var newValue := ValueAt(symbols, n);
      symbols := symbols - {n};
      after, written := SaveKey(before, found, dirty, todo, after, written, n, newValue);
      todo := todo - {n};
    }
    after, written := SaveRest(before, found, symbols, dirty, after, written);
  }

  /** The symbols left are new keys. */
  method SaveRest(before: Entries, found: Entries, symbols: Entries, dirty: set<FileId>, after: Entries,
                  ghost written: set<string>)
    returns (after': Entries, ghost written': set<string>)
    requires NoneEmpty(before) && NoneEmpty(after) && NoneEmpty(found) && symbols == found - before.Keys
    requires Progress(before, found, dirty, {}, after) && WrittenIffChanged(before, after, written)
    ensures SavedSymbols(before, found, dirty, after')
    ensures NoneEmpty(after') && WrittenIffChanged(before, after', written')
  {
    after', written' := after + symbols, written + symbols.Keys;
    forall n ensures SavedValue(ValueAt(before, n), ValueAt(found, n), dirty, ValueAt(after', n)) {
      assert if n in before then ValueAt(after', n) == ValueAt(after, n) else SameAt(before, after, n) by {
        assert n !in before ==> SameAt(before, after, n) || ValueAt(after, n) != map[];
      }
    }
    forall n ensures n in written' <==> !SameAt(before, after', n) {
      assert n !in before ==> ValueAt(after, n) == map[];
    }
  }

  /** If every file parsed anew is dirty or was not in the table, saving replaces the dirty files
      by the ones parsed anew. */
  lemma SavedIsUnion(before: Entries, parses: map<FileId, Entries>, found: Entries, newly: map<FileId, Entries>,
                     dirty: set<FileId>, after: Entries)
    requires IsUnion(before, parses) && IsUnion(found, newly) && NoneEmpty(after)
    requires forall id :: id in newly ==> id in dirty || id !in parses
    requires SavedSymbols(before, found, dirty, after)
    ensures IsUnion(after, (parses - dirty) + newly)
  {
    var now := (parses - dirty) + newly;
    forall n, l ensures At(after, n, l) == if l.fileId in now then At(now[l.fileId], n, l) else None {
      AtIsInValue(before, n, l);
      AtIsInValue(found, n, l);
      AtIsInValue(after, n, l);
      assert SavedValue(ValueAt(before, n), ValueAt(found, n), dirty, ValueAt(after, n));
    }
  }

  // --- Parsing ---

  ghost predicate OnlyIn(parse: Entries, id: FileId) {
    NoneEmpty(parse) && forall n, l :: At(parse, n, l).Some? ==> l.fileId == id
  }

  /** What the parser has recorded for a file is in that file. */
  lemma ParsedIsOwn(tokens: seq<Token>, id: FileId, entries: Entries, n: string, l: Location)
    requires Sound(tokens, id, map[], entries) && At(entries, n, l).Some?
    ensures l.fileId == id
  {
    assert At(map[], n, l) == None;
  }

  /** What the parser finds in a file, on its own. */
  ghost predicate IsParseOf(tokens: seq<Token>, id: FileId, parse: Entries)
    requires Lexed(tokens)
  {
    OnlyIn(parse, id) && Parses(tokens, id, map[], parse)
  }

  /** Every file has a parse, and it lies in that file. */
  method ParseSource(tokens: seq<Token>, id: FileId) returns (entries: Entries)
    requires Lexed(tokens)
    ensures IsParseOf(tokens, id, entries)
  {
    ghost var run;
    entries, run := ParseFile(tokens, id, map[]);
    forall n, l | At(entries, n, l).Some? ensures l.fileId == id {
      ParsedIsOwn(tokens, id, entries, n, l);
    }
  }

  lemma MergedIsUnion(symbols: Entries, parses: map<FileId, Entries>, id: FileId, parse: Entries)
    requires IsUnion(symbols, parses) && OnlyIn(parse, id) && id !in parses
    ensures IsUnion(Merged(symbols, parse), parses[id := parse])
  {
    var all, now := Merged(symbols, parse), parses[id := parse];
    forall n, l ensures At(all, n, l) == if l.fileId in now then At(now[l.fileId], n, l) else None {
      AtIsInValue(symbols, n, l);
      AtIsInValue(parse, n, l);
      AtIsInValue(all, n, l);
    }
    forall n | n in all ensures all[n] != map[] {
      if n in parse {
        var l :| l in parse[n];
        assert l in all[n];
      } else {
        var l :| l in symbols[n];
        assert l in all[n];
      }
    }
  }

  // --- Ids ---

  datatype Visit = Visit(path: Path, source: bool)

  predicate Distinct(vs: seq<Visit>) {
    forall i, j :: 0 <= i < j < |vs| ==> vs[i].path != vs[j].path
  }

  ghost predicate Injective(ids: map<Path, FileId>) {
    forall p, q :: p in ids && q in ids && ids[p] == ids[q] ==> p == q
  }

  /** How many of the first n paths have no id yet. */
  function NewCount(ids: map<Path, FileId>, vs: seq<Visit>, n: nat): nat
    requires n <= |vs|
  {
    if n == 0 then 0 else NewCount(ids, vs, n - 1) + if vs[n - 1].path in ids then 0 else 1
  }

  lemma {:induction false} NewCountGrows(ids: map<Path, FileId>, vs: seq<Visit>, n: nat, m: nat)
    requires n <= m <= |vs|
    ensures NewCount(ids, vs, n) <= NewCount(ids, vs, m)
  {
    if n < m {
      NewCountGrows(ids, vs, n, m - 1);
    }
  }

  predicate NoneBetween(ids: map<Path, FileId>, from: int, to: int) {
    forall p :: p in ids ==> !(from < ids[p] <= to)
  }

  /** No path has one of the ids last + 1 to last + count. */
  predicate Unused(ids: map<Path, FileId>, last: nat, count: nat) {
    last + count < 0x8000_0000 && NoneBetween(ids, last, last + count)
  }

  /** A path has an id, under which it was parsed when it was last modified or later. */
  predicate Current(files: map<FileId, int>, ids: map<Path, FileId>, modified: Path -> int, p: Path) {
    p in ids && ids[p] in files && files[ids[p]] != 0 && files[ids[p]] >= modified(p)
  }

  /** The ids after a visit: those there were, and new ones that follow last. */
  ghost predicate IdsExtend(ids0: map<Path, FileId>, last0: nat, ids: map<Path, FileId>, last: nat) {
    && last0 <= last && Injective(ids)
    && (forall p :: p in ids0 ==> p in ids && ids[p] == ids0[p])
    && (forall p :: p in ids && p !in ids0 ==> last0 < ids[p] <= last)
  }

  /** After the first n visits: pending are the sources that are new or stale, and of the dirty
      ids those of current sources are gone. */
  ghost predicate Visited(files: map<FileId, int>, modified: Path -> int, vs: seq<Visit>, n: nat,
                          ids: map<Path, FileId>, pending: seq<Path>, dirty0: set<FileId>, dirty: set<FileId>)
    requires n <= |vs|
  {
    && (forall i :: 0 <= i < n ==> vs[i].path in ids)
    && (forall i :: 0 <= i < n && vs[i].source ==>
          (vs[i].path in pending <==> !Current(files, ids, modified, vs[i].path)))
    && (forall p :: p in pending ==> exists i :: 0 <= i < n && vs[i] == Visit(p, true))
    && (forall i, j :: 0 <= i < j < |pending| ==> pending[i] != pending[j])
    && (forall i :: 0 <= i < n && vs[i].source && Current(files, ids, modified, vs[i].path) ==>
          ids[vs[i].path] !in dirty)
    && (forall id :: id in dirty0 && id !in dirty ==>
          exists i :: 0 <= i < n && IsCurrentSource(files, ids, modified, vs[i], id))
    && dirty <= dirty0
  }

  predicate IsCurrentSource(files: map<FileId, int>, ids: map<Path, FileId>, modified: Path -> int, v: Visit,
                            id: FileId) {
    v.source && Current(files, ids, modified, v.path) && ids[v.path] == id
  }

  /** Location::insertFile: the id of a path, a new one if it has none. */
  method InsertFile(ids: map<Path, FileId>, last: nat, path: Path)
    returns (ids': map<Path, FileId>, last': nat, id: FileId)
    requires path in ids || last + 1 < 0x8000_0000
    ensures path in ids ==> ids' == ids && last' == last && id == ids[path]
    ensures path !in ids ==> last' == last + 1 && id == last' && ids' == ids[path := id]
  {
    ids', last' := ids, last;
    if path !in ids {
      last' := last + 1;
      ids' := ids[path := last'];
    }
    id := ids'[path];
  }

  lemma InsertExtends(ids0: map<Path, FileId>, last0: nat, count: nat, ids: map<Path, FileId>, last: nat, path: Path)
    requires Unused(ids0, last0, count) && IdsExtend(ids0, last0, ids, last) && path !in ids && last < last0 + count
    ensures IdsExtend(ids0, last0, ids[path := last + 1], last + 1)
  {
    var ids' := ids[path := last + 1];
    forall p | p in ids ensures ids[p] != last + 1 {
    }
    forall p, q | p in ids' && q in ids' && ids'[p] == ids'[q] ensures p == q {
    }
  }

  /** A new id for another path changes nothing about those visited. */
  lemma VisitedExtends(files: map<FileId, int>, modified: Path -> int, vs: seq<Visit>, n: nat,
                       ids: map<Path, FileId>, ids': map<Path, FileId>, pending: seq<Path>,
                       dirty0: set<FileId>, dirty: set<FileId>)
    requires n <= |vs| && Visited(files, modified, vs, n, ids, pending, dirty0, dirty)
    requires forall p :: p in ids ==> p in ids' && ids'[p] == ids[p]
    ensures Visited(files, modified, vs, n, ids', pending, dirty0, dirty)
  {
    forall id | id in dirty0 && id !in dirty
      ensures exists i :: 0 <= i < n && IsCurrentSource(files, ids', modified, vs[i], id)
    {
      var i :| 0 <= i < n && IsCurrentSource(files, ids, modified, vs[i], id);
      assert IsCurrentSource(files, ids', modified, vs[i], id);
    }
  }

  /** visit() for one path. */
  method VisitOne(files: map<FileId, int>, modified: Path -> int, ghost vs: seq<Visit>, ghost n: nat, v: Visit,
                  id: FileId, ghost ids: map<Path, FileId>, pending: seq<Path>,
                  ghost dirty0: set<FileId>, dirty: set<FileId>)
    returns (pending': seq<Path>, dirty': set<FileId>)
    requires n < |vs| && v == vs[n] && Distinct(vs) && Injective(ids) && v.path in ids && id == ids[v.path]
    requires Visited(files, modified, vs, n, ids, pending, dirty0, dirty)
    ensures Visited(files, modified, vs, n + 1, ids, pending', dirty0, dirty')
  {
    pending', dirty' := pending, dirty;
    assert v.path !in pending;
    if v.source {
      var parsed := if id in files then files[id] else 0;
      if parsed == 0 {
        pending' := pending + [v.path];
      } else if parsed < modified(v.path) {
        pending' := pending + [v.path];
      } else {
        dirty' := dirty - {id};
      }
      VisitedSource(files, modified, vs, n, ids, pending, dirty0, dirty, pending', dirty');
    } else {
      VisitedOther(files, modified, vs, n, ids, pending, dirty0, dirty);
    }
  }

  lemma VisitedOther(files: map<FileId, int>, modified: Path -> int, vs: seq<Visit>, n: nat,
                     ids: map<Path, FileId>, pending: seq<Path>, dirty0: set<FileId>, dirty: set<FileId>)
    requires n < |vs| && !vs[n].source && vs[n].path in ids
    requires Visited(files, modified, vs, n, ids, pending, dirty0, dirty)
    ensures Visited(files, modified, vs, n + 1, ids, pending, dirty0, dirty)
  {
  }

  lemma VisitedSource(files: map<FileId, int>, modified: Path -> int, vs: seq<Visit>, n: nat,
                      ids: map<Path, FileId>, pending: seq<Path>, dirty0: set<FileId>, dirty: set<FileId>,
                      pending': seq<Path>, dirty': set<FileId>)
    requires n < |vs| && vs[n].source && vs[n].path in ids && Distinct(vs) && Injective(ids)
    requires Visited(files, modified, vs, n, ids, pending, dirty0, dirty)
    requires if Current(files, ids, modified, vs[n].path)
             then pending' == pending && dirty' == dirty - {ids[vs[n].path]}
             else pending' == pending + [vs[n].path] && dirty' == dirty
    ensures Visited(files, modified, vs, n + 1, ids, pending', dirty0, dirty')
  {
    var p := vs[n].path;
    assert p !in pending;
    forall i | 0 <= i < n ensures vs[i].path in pending' <==> vs[i].path in pending {
      assert vs[i].path != p;
    }
    forall q | q in pending' ensures exists i :: 0 <= i < n + 1 && vs[i] == Visit(q, true) {
      if q in pending {
        var i :| 0 <= i < n && vs[i] == Visit(q, true);
      } else {
        assert vs[n] == Visit(q, true);
      }
    }
    forall id | id in dirty0 && id !in dirty'
      ensures exists i :: 0 <= i < n + 1 && IsCurrentSource(files, ids, modified, vs[i], id)
    {
      if id in dirty {
        assert IsCurrentSource(files, ids, modified, vs[n], id);
      } else {
        var i :| 0 <= i < n && IsCurrentSource(files, ids, modified, vs[i], id);
      }
    }
  }

  ghost predicate OnlyVisited(ids0: map<Path, FileId>, vs: seq<Visit>, n: nat, ids: map<Path, FileId>)
    requires n <= |vs|
  {
    forall p :: p in ids && p !in ids0 ==> exists j :: 0 <= j < n && vs[j].path == p
  }

  /** The path of the next visit gets its id. */
  method InsertNext(vs: seq<Visit>, i: nat, ids0: map<Path, FileId>, ghost last0: nat,
                    ids: map<Path, FileId>, last: nat)
    returns (ids': map<Path, FileId>, last': nat, id: FileId)
    requires i < |vs| && Distinct(vs) && Unused(ids0, last0, NewCount(ids0, vs, |vs|))
    requires IdsExtend(ids0, last0, ids, last) && last == last0 + NewCount(ids0, vs, i) && OnlyVisited(ids0, vs, i, ids)
    ensures IdsExtend(ids0, last0, ids', last') && last' == last0 + NewCount(ids0, vs, i + 1)
      && OnlyVisited(ids0, vs, i + 1, ids')
    ensures (forall p :: p in ids ==> p in ids' && ids'[p] == ids[p]) && vs[i].path in ids' && id == ids'[vs[i].path]
  {
    var path := vs[i].path;
    NewCountGrows(ids0, vs, i + 1, |vs|);
    assert path in ids <==> path in ids0;
    if path !in ids {
      InsertExtends(ids0, last0, NewCount(ids0, vs, |vs|), ids, last, path);
    }
    ids', last', id := InsertFile(ids, last, path);
    forall p | p in ids' && p !in ids0 ensures exists j :: 0 <= j < i + 1 && vs[j].path == p {
      if p == path {
        assert vs[i].path == p;
      }
    }
  }

  /** The visit of the whole tree. */
  method VisitAll(files: map<FileId, int>, modified: Path -> int, vs: seq<Visit>, ids0: map<Path, FileId>, last0: nat,
                  dirty0: set<FileId>)
    returns (ids: map<Path, FileId>, last: nat, pending: seq<Path>, dirty: set<FileId>)
    requires Distinct(vs) && Injective(ids0) && Unused(ids0, last0, NewCount(ids0, vs, |vs|))
    ensures IdsExtend(ids0, last0, ids, last) && last == last0 + NewCount(ids0, vs, |vs|)
    ensures Visited(files, modified, vs, |vs|, ids, pending, dirty0, dirty)
  {
    ids, last, pending, dirty := ids0, last0, [], dirty0;
    for i := 0 to |vs|
      invariant IdsExtend(ids0, last0, ids, last) && last == last0 + NewCount(ids0, vs, i)
        && OnlyVisited(ids0, vs, i, ids)
      invariant Visited(files, modified, vs, i, ids, pending, dirty0, dirty)
    {
      ghost var before := ids;
      var id;
      ids, last, id := InsertNext(vs, i, ids0, last0, ids, last);
      VisitedExtends(files, modified, vs, i, before, ids, pending, dirty0, dirty);
      pending, dirty := VisitOne(files, modified, vs, i, vs[i], id, ids, pending, dirty0, dirty);
    }
  }

  // --- One run ---

  /** What the operating system and the lexer answer during a run; parse is what the parser finds
      in a file on its own. */
  datatype World = World(present: Path -> bool, modified: Path -> int, tokens: Path -> seq<Token>,
                         parse: (Path, FileId) -> Entries, now: int)

  ghost predicate IsParsedBy(w: World) {
    forall p, id {:trigger w.parse(p, id)} :: Lexed(w.tokens(p)) && IsParseOf(w.tokens(p), id, w.parse(p, id))
  }

  /** The ids of the paths that still exist. */
  function Remaining(db: Database, w: World): map<Path, FileId> {
    map p | p in db.paths && w.present(p) :: db.paths[p]
  }

  /** The database holds the union of these parses, of files it knows the times of. */
  ghost predicate Holds(db: Database, parses: map<FileId, Entries>) {
    IsUnion(db.symbols, parses) && parses.Keys <= db.times.Keys && Injective(db.paths)
  }

  /** Ids that are given out in the run are not in use by a path that still exists. */
  predicate IdsAreUnused(db: Database, w: World, vs: seq<Visit>) {
    var remaining := Remaining(db, w);
    Unused(remaining, |remaining|, NewCount(remaining, vs, |vs|))
  }

  /** What was found in the files parsed anew. */
  ghost predicate IsParsed(w: World, ids: map<Path, FileId>, pending: seq<Path>, n: nat, newly: map<FileId, Entries>)
    requires n <= |pending|
  {
    && (forall i :: 0 <= i < n ==>
          pending[i] in ids && ids[pending[i]] in newly
          && newly[ids[pending[i]]] == w.parse(pending[i], ids[pending[i]]))
    && (forall id :: id in newly ==> exists i :: 0 <= i < n && pending[i] in ids && ids[pending[i]] == id)
  }

  /** The times of the files parsed anew are now. */
  ghost predicate Stamped(files: map<FileId, int>, newly: map<FileId, Entries>, now: int, files': map<FileId, int>) {
    && files'.Keys == files.Keys + newly.Keys
    && forall id :: id in files' ==> files'[id] == if id in newly then now else files[id]
  }

  /** One file is parsed into the symbols found so far. */
  method ParseNext(w: World, p: Path, id: FileId, symbols: Entries) returns (symbols': Entries)
    requires IsParsedBy(w) && NoneEmpty(symbols)
    ensures symbols' == Merged(symbols, w.parse(p, id))
  {
    ghost var own := w.parse(p, id);
    ghost var run;
    symbols', run := ParseFile(w.tokens(p), id, symbols);
    ParsesInto(w.tokens(p), id, symbols, own, symbols');
  }

  /** parseFiles() */
  method ParseFiles(w: World, ids: map<Path, FileId>, pending: seq<Path>, files: map<FileId, int>)
    returns (symbols: Entries, files': map<FileId, int>, ghost newly: map<FileId, Entries>)
    requires IsParsedBy(w) && Injective(ids) && (forall p :: p in pending ==> p in ids)
    requires forall i, j :: 0 <= i < j < |pending| ==> pending[i] != pending[j]
    ensures IsUnion(symbols, newly) && IsParsed(w, ids, pending, |pending|, newly)
    ensures Stamped(files, newly, w.now, files')
  {
    symbols, files', newly := map[], files, map[];
    for i := 0 to |pending|
      invariant IsUnion(symbols, newly) && IsParsed(w, ids, pending, i, newly)
      invariant Stamped(files, newly, w.now, files')
    {
      var p := pending[i];
      var id := ids[p];
      assert id !in newly;
      MergedIsUnion(symbols, newly, id, w.parse(p, id));
      symbols := ParseNext(w, p, id, symbols);
      ParsedNext(w, ids, pending, i, newly);
      StampedNext(files, newly, id, w.parse(p, id), w.now, files');
      newly := newly[id := w.parse(p, id)];
      files' := files'[id := w.now];
    }
  }

  lemma StampedNext(files: map<FileId, int>, newly: map<FileId, Entries>, id: FileId, parse: Entries, now: int,
                    files': map<FileId, int>)
    requires Stamped(files, newly, now, files')
    ensures Stamped(files, newly[id := parse], now, files'[id := now])
  {
  }

  lemma ParsedNext(w: World, ids: map<Path, FileId>, pending: seq<Path>, n: nat, newly: map<FileId, Entries>)
    requires n < |pending| && Injective(ids) && pending[n] in ids && IsParsed(w, ids, pending, n, newly)
    requires forall i, j :: 0 <= i < j < |pending| ==> pending[i] != pending[j]
    ensures IsParsed(w, ids, pending, n + 1, newly[ids[pending[n]] := w.parse(pending[n], ids[pending[n]])])
  {
    var id := ids[pending[n]];
    var newly' := newly[id := w.parse(pending[n], id)];
    forall k | k in newly' ensures exists i :: 0 <= i < n + 1 && pending[i] in ids && ids[pending[i]] == k {
      if k == id {
        assert pending[n] in ids && ids[pending[n]] == k;
      } else {
        var i :| 0 <= i < n && pending[i] in ids && ids[pending[i]] == k;
      }
    }
  }

  /** What load(), visit() and parseFiles() have found out. */
  datatype Found = Found(ids: map<Path, FileId>, last: nat, pending: seq<Path>, dirty: set<FileId>,
                         symbols: Entries, files: map<FileId, int>)

  /** All paths in the tree have ids: those they had, or the next ones. */
  ghost predicate IdsAssigned(ids0: map<Path, FileId>, vs: seq<Visit>, ids: map<Path, FileId>, last: nat) {
    && IdsExtend(ids0, |ids0|, ids, last) && last == |ids0| + NewCount(ids0, vs, |vs|)
    && (forall i :: 0 <= i < |vs| ==> vs[i].path in ids)
  }

  /** The ids of the paths that do not exist any more. */
  function Gone(db: Database, w: World): set<FileId> {
    set p | p in db.paths && !w.present(p) :: db.paths[p]
  }

  ghost predicate VisitedTree(db: Database, w: World, vs: seq<Visit>, f: Found) {
    Visited(db.times, w.modified, vs, |vs|, f.ids, f.pending, db.times.Keys + Gone(db, w), f.dirty)
  }

  /** What the visit and the parser have made of the tree. */
  ghost predicate Explored(db: Database, w: World, vs: seq<Visit>, f: Found, newly: map<FileId, Entries>) {
    && IdsAssigned(Remaining(db, w), vs, f.ids, f.last)
    && VisitedTree(db, w, vs, f)
    && IsParsed(w, f.ids, f.pending, |f.pending|, newly) && IsUnion(f.symbols, newly)
    && Stamped(db.times, newly, w.now, f.files)
  }

  /** The clean files that were in the table before, and those parsed anew. */
  function Now(parses: map<FileId, Entries>, f: Found, newly: map<FileId, Entries>): map<FileId, Entries> {
    (parses - f.dirty) + newly
  }

  /** A source that is current keeps what the table says of it, be that its own or not. */
  lemma CurrentIsKept(db: Database, w: World, vs: seq<Visit>, f: Found, newly: map<FileId, Entries>, i: nat)
    requires VisitedTree(db, w, vs, f) && IsParsed(w, f.ids, f.pending, |f.pending|, newly) && Injective(f.ids)
    requires i < |vs| && vs[i].source && Current(db.times, f.ids, w.modified, vs[i].path)
    ensures f.ids[vs[i].path] !in f.dirty && f.ids[vs[i].path] !in newly
  {
    var id := f.ids[vs[i].path];
    forall k | 0 <= k < |f.pending| && f.pending[k] in f.ids ensures f.ids[f.pending[k]] != id {
      assert f.pending[k] in f.pending;
    }
  }

  lemma StaleIsParsed(db: Database, w: World, vs: seq<Visit>, f: Found, newly: map<FileId, Entries>, i: nat)
    requires VisitedTree(db, w, vs, f) && IsParsed(w, f.ids, f.pending, |f.pending|, newly)
    requires i < |vs| && vs[i].source && !Current(db.times, f.ids, w.modified, vs[i].path)
    ensures vs[i].path in f.pending && vs[i].path in f.ids && f.ids[vs[i].path] in newly
    ensures newly[f.ids[vs[i].path]] == w.parse(vs[i].path, f.ids[vs[i].path])
  {
    assert vs[i].path in f.pending;
    var k :| 0 <= k < |f.pending| && f.pending[k] == vs[i].path;
  }

  predicate IsSource(v: Visit, ids: map<Path, FileId>, id: FileId) {
    v.source && v.path in ids && ids[v.path] == id
  }

  ghost predicate InSource(vs: seq<Visit>, ids: map<Path, FileId>, id: FileId) {
    exists i :: 0 <= i < |vs| && IsSource(vs[i], ids, id)
  }

  lemma PendingIsSource(db: Database, w: World, vs: seq<Visit>, f: Found, i: nat)
    requires VisitedTree(db, w, vs, f) && i < |f.pending| && f.pending[i] in f.ids
    ensures InSource(vs, f.ids, f.ids[f.pending[i]])
  {
    assert f.pending[i] in f.pending;
    var k :| 0 <= k < |vs| && vs[k] == Visit(f.pending[i], true);
    assert IsSource(vs[k], f.ids, f.ids[f.pending[i]]);
  }

  /** What is clean or parsed anew is a source in the tree. */
  lemma OnlySourcesAreThere(db: Database, w: World, vs: seq<Visit>, f: Found, parses: map<FileId, Entries>,
                            newly: map<FileId, Entries>, id: FileId)
    requires VisitedTree(db, w, vs, f) && IsParsed(w, f.ids, f.pending, |f.pending|, newly)
    requires parses.Keys <= db.times.Keys && id in Now(parses, f, newly)
    ensures InSource(vs, f.ids, id)
  {
    if id in newly {
      var i :| 0 <= i < |f.pending| && f.pending[i] in f.ids && f.ids[f.pending[i]] == id;
      PendingIsSource(db, w, vs, f, i);
    } else {
      var j :| 0 <= j < |vs| && IsCurrentSource(db.times, f.ids, w.modified, vs[j], id);
      assert IsSource(vs[j], f.ids, id);
    }
  }

  /** The files parsed anew were dirty, or are in no table. */
  lemma NewlyParsedAreDirty(db: Database, w: World, vs: seq<Visit>, f: Found, parses: map<FileId, Entries>,
                            newly: map<FileId, Entries>)
    requires VisitedTree(db, w, vs, f) && IsParsed(w, f.ids, f.pending, |f.pending|, newly)
    requires Injective(f.ids) && parses.Keys <= db.times.Keys
    ensures forall id :: id in newly ==> id in f.dirty || id !in parses
  {
    forall id | id in newly && id in parses ensures id in f.dirty {
      var i :| 0 <= i < |f.pending| && f.pending[i] in f.ids && f.ids[f.pending[i]] == id;
      var p := f.pending[i];
      assert p in f.pending;
      var k :| 0 <= k < |vs| && vs[k] == Visit(p, true);
      assert !Current(db.times, f.ids, w.modified, p);
      forall j | 0 <= j < |vs| ensures !IsCurrentSource(db.times, f.ids, w.modified, vs[j], id) {
      }
    }
  }

  // --- What the table says afterwards ---

  /** The table says about this file what its parse says. */
  ghost predicate SaysOf(symbols: Entries, id: FileId, parse: Entries) {
    forall n, l: Location :: l.fileId == id ==> At(symbols, n, l) == At(parse, n, l)
  }

  ghost predicate SaysOfSource(w: World, v: Visit, ids: map<Path, FileId>, symbols: Entries) {
    v.path in ids && SaysOf(symbols, ids[v.path], w.parse(v.path, ids[v.path]))
  }

  /** The table says about each source in the tree what parsing it says, and nothing else. */
  ghost predicate IsTableOfTree(w: World, vs: seq<Visit>, ids: map<Path, FileId>, symbols: Entries) {
    && (forall i :: 0 <= i < |vs| && vs[i].source ==> SaysOfSource(w, vs[i], ids, symbols))
    && (forall n, l :: At(symbols, n, l).Some? ==> InSource(vs, ids, l.fileId))
  }

  /** The table says what parsing them says about the sources that are taken for current: those
      that have an id with a time at which, or after which, they were last modified. */
  ghost predicate CurrentAreThere(files: map<FileId, int>, w: World, vs: seq<Visit>, ids: map<Path, FileId>,
                                  symbols: Entries) {
    forall i :: 0 <= i < |vs| && vs[i].source && Current(files, ids, w.modified, vs[i].path) ==>
      SaysOfSource(w, vs[i], ids, symbols)
  }

  ghost predicate SaysNothing(parse: Entries, id: FileId) {
    forall n, l: Location :: l.fileId == id ==> At(parse, n, l) == None
  }

  /** Nothing was ever found in files that are no longer sources in the tree. */
  ghost predicate NothingElse(vs: seq<Visit>, ids: map<Path, FileId>, parses: map<FileId, Entries>) {
    forall id :: id in parses && !InSource(vs, ids, id) ==> SaysNothing(parses[id], id)
  }

  /** One source, after saving. */
  lemma SourceIsSaved(db: Database, w: World, vs: seq<Visit>, f: Found, parses: map<FileId, Entries>,
                      newly: map<FileId, Entries>, after: Entries, i: nat)
    requires Explored(db, w, vs, f, newly)
    requires IsUnion(db.symbols, parses) && IsUnion(after, Now(parses, f, newly))
    requires i < |vs| && vs[i].source
    ensures if Current(db.times, f.ids, w.modified, vs[i].path)
            then SaysOfSource(w, vs[i], f.ids, after) <==> SaysOfSource(w, vs[i], f.ids, db.symbols)
            else SaysOfSource(w, vs[i], f.ids, after)
  {
    if Current(db.times, f.ids, w.modified, vs[i].path) {
      CurrentIsKept(db, w, vs, f, newly, i);
      var id := f.ids[vs[i].path];
      forall n, l: Location | l.fileId == id ensures At(after, n, l) == At(db.symbols, n, l) {
      }
    } else {
      StaleIsParsed(db, w, vs, f, newly, i);
    }
  }

  /** What is saved is the table of the tree exactly if the files taken for current rightly are. */
  lemma SavedIsTableIff(db: Database, w: World, vs: seq<Visit>, f: Found, parses: map<FileId, Entries>,
                        newly: map<FileId, Entries>, after: Entries)
    requires Explored(db, w, vs, f, newly) && parses.Keys <= db.times.Keys
    requires IsUnion(db.symbols, parses) && IsUnion(after, Now(parses, f, newly))
    ensures IsTableOfTree(w, vs, f.ids, after) <==> CurrentAreThere(db.times, w, vs, f.ids, db.symbols)
  {
    forall i | 0 <= i < |vs| && vs[i].source
      ensures if Current(db.times, f.ids, w.modified, vs[i].path)
              then SaysOfSource(w, vs[i], f.ids, after) <==> SaysOfSource(w, vs[i], f.ids, db.symbols)
              else SaysOfSource(w, vs[i], f.ids, after)
    {
      SourceIsSaved(db, w, vs, f, parses, newly, after, i);
    }
    forall n, l | At(after, n, l).Some? ensures InSource(vs, f.ids, l.fileId) {
      OnlySourcesAreThere(db, w, vs, f, parses, newly, l.fileId);
    }
  }

  /** A table that is left as it was is that of the tree exactly if, besides, nothing was found
      in the files that have gone. */
  lemma UnsavedIsTableIff(db: Database, w: World, vs: seq<Visit>, f: Found, parses: map<FileId, Entries>)
    requires VisitedTree(db, w, vs, f) && f.pending == [] && IsUnion(db.symbols, parses)
    ensures IsTableOfTree(w, vs, f.ids, db.symbols)
       <==> CurrentAreThere(db.times, w, vs, f.ids, db.symbols) && NothingElse(vs, f.ids, parses)
  {
    forall i | 0 <= i < |vs| && vs[i].source ensures Current(db.times, f.ids, w.modified, vs[i].path) {
      assert vs[i].path !in f.pending;
    }
    if IsTableOfTree(w, vs, f.ids, db.symbols) {
      forall id | id in parses && !InSource(vs, f.ids, id) ensures SaysNothing(parses[id], id) {
        forall n, l: Location | l.fileId == id ensures At(parses[id], n, l) == None {
          assert At(db.symbols, n, l) == At(parses[id], n, l);
        }
      }
    }
    if NothingElse(vs, f.ids, parses) {
      forall n, l | At(db.symbols, n, l).Some? ensures InSource(vs, f.ids, l.fileId) {
        assert l.fileId in parses && !SaysNothing(parses[l.fileId], l.fileId);
      }
    }
  }

  // --- The run ---

  /** The first part of load() in Update mode. The keys of times come before the others, being
      those that begin with a blank, so no id is dirty yet when it comes up, and the branch that
      would delete it is dead. */
  method LoadTimes(db: Database) returns (files: map<FileId, int>, dirty: set<FileId>)
    ensures files == db.times && dirty == db.times.Keys
  {
    files, dirty := map[], {};
    var todo := db.times.Keys;
    while todo != {}
      invariant todo <= db.times.Keys && dirty == db.times.Keys - todo == files.Keys
      invariant forall id :: id in files ==> files[id] == db.times[id]
    {
      var id :| id in todo;
      todo := todo - {id};
      if id in dirty {
        // the time would be deleted
        assert false;
      } else {
        dirty := dirty + {id};
        files := files[id := db.times[id]];
      }
    }
  }

  /** The second part: the paths. */
  method LoadPaths(db: Database, w: World, dirty0: set<FileId>) returns (ids: map<Path, FileId>, dirty: set<FileId>)
    ensures ids == Remaining(db, w) && dirty == dirty0 + Gone(db, w)
  {
    ids, dirty := map[], dirty0;
    var todo := db.paths.Keys;
    while todo != {}
      invariant todo <= db.paths.Keys
      invariant forall p :: p in ids <==> p in db.paths && w.present(p) && p !in todo
      invariant forall p :: p in ids ==> ids[p] == db.paths[p]
      invariant dirty0 <= dirty <= dirty0 + Gone(db, w)
      invariant forall p :: p in db.paths && !w.present(p) && p !in todo ==> db.paths[p] in dirty
    {
      var p :| p in todo;
      todo := todo - {p};
      if w.present(p) {
        ids := ids[p := db.paths[p]];
      } else {
        assert db.paths[p] in Gone(db, w);
        dirty := dirty + {db.paths[p]};
      }
    }
  }

  /** load() in Update mode. */
  method Load(db: Database, w: World) returns (ids: map<Path, FileId>, dirty: set<FileId>)
    ensures ids == Remaining(db, w) && dirty == db.times.Keys + Gone(db, w)
  {
    var files;
    files, dirty := LoadTimes(db);
    ids, dirty := LoadPaths(db, w, dirty);
  }

  /** Visiting and parsing, for a database that was loaded. */
  method Explore(db: Database, w: World, vs: seq<Visit>, dirty0: set<FileId>)
    returns (f: Found, ghost newly: map<FileId, Entries>)
    requires dirty0 == db.times.Keys + Gone(db, w) && Injective(db.paths) && IdsAreUnused(db, w, vs)
    requires Distinct(vs) && IsParsedBy(w)
    ensures Explored(db, w, vs, f, newly)
  {
    var remaining := Remaining(db, w);
    assert Injective(remaining);
    var ids, last, pending, dirty := VisitAll(db.times, w.modified, vs, remaining, |remaining|, dirty0);
    assert forall p :: p in pending ==> p in ids;
    var symbols, files;
    symbols, files, newly := ParseFiles(w, ids, pending, db.times);
    f := Found(ids, last, pending, dirty, symbols, files);
  }

  /** save() in Update mode. */
  method Save(before: Database, paths: map<Path, FileId>, f: Found) returns (after: Database)
    requires NoneEmpty(before.symbols) && NoneEmpty(f.symbols)
    ensures after.paths == paths + f.ids && after.times == before.times + f.files
    ensures SavedSymbols(before.symbols, f.symbols, f.dirty, after.symbols) && NoneEmpty(after.symbols)
  {
    var symbols, _ := SaveSymbols(before.symbols, f.symbols, f.dirty);
    after := Database(paths + f.ids, before.times + f.files, symbols);
  }

  lemma AllIdsAreSaved(ids0: map<Path, FileId>, vs: seq<Visit>, ids: map<Path, FileId>, last: nat)
    requires IdsAssigned(ids0, vs, ids, last)
    ensures ids0 + ids == ids && Injective(ids)
  {
  }

  lemma AllTimesAreSaved(files: map<FileId, int>, newly: map<FileId, Entries>, now: int, files': map<FileId, int>)
    requires Stamped(files, newly, now, files')
    ensures files + files' == files' && newly.Keys <= files'.Keys && files.Keys <= files'.Keys
  {
  }

  lemma SavedHolds(before: Database, w: World, vs: seq<Visit>, f: Found, parses: map<FileId, Entries>,
                   newly: map<FileId, Entries>, after: Database)
    requires IsUnion(before.symbols, parses) && parses.Keys <= before.times.Keys
    requires VisitedTree(before, w, vs, f) && IsParsed(w, f.ids, f.pending, |f.pending|, newly) && Injective(f.ids)
    requires IsUnion(f.symbols, newly) && newly.Keys <= after.times.Keys && before.times.Keys <= after.times.Keys
    requires SavedSymbols(before.symbols, f.symbols, f.dirty, after.symbols) && NoneEmpty(after.symbols)
    ensures IsUnion(after.symbols, Now(parses, f, newly)) && Now(parses, f, newly).Keys <= after.times.Keys
  {
    NewlyParsedAreDirty(before, w, vs, f, parses, newly);
    SavedIsUnion(before.symbols, parses, f.symbols, newly, f.dirty, after.symbols);
  }

  /** The end of exec(): it saves if anything was parsed. */
  method SaveIfParsed(before: Database, w: World, vs: seq<Visit>, paths: map<Path, FileId>, f: Found,
                      ghost parses: map<FileId, Entries>, ghost newly: map<FileId, Entries>)
    returns (after: Database)
    requires Holds(before, parses) && Explored(before, w, vs, f, newly) && paths == Remaining(before, w)
    ensures f.pending != [] ==> Holds(after, Now(parses, f, newly))
    ensures f.pending == [] ==> Holds(after, parses) && after.symbols == before.symbols
    ensures after.paths == if f.pending == [] then paths else f.ids
    ensures after.times == if f.pending == [] then before.times else f.files
  {
    after := before.(paths := paths);
    if |f.pending| > 0 {
      after := Save(before, paths, f);
      AllIdsAreSaved(paths, vs, f.ids, f.last);
      AllTimesAreSaved(before.times, newly, w.now, f.files);
      SavedHolds(before, w, vs, f, parses, newly, after);
    }
  }

  /** Pending are the sources that are new or stale. */
  ghost predicate PendingAre(files: map<FileId, int>, w: World, vs: seq<Visit>, f: Found) {
    forall p :: p in f.pending <==>
      exists i :: 0 <= i < |vs| && vs[i] == Visit(p, true) && !Current(files, f.ids, w.modified, p)
  }

  predicate IsPending(f: Found, id: FileId) {
    exists p :: p in f.pending && p in f.ids && f.ids[p] == id
  }

  /** A source taken for current keeps what the table has of its id, another has its parse. */
  predicate SourceIsNext(files: map<FileId, int>, w: World, v: Visit, ids: map<Path, FileId>,
                         parses: map<FileId, Entries>, now: map<FileId, Entries>)
  {
    v.path in ids &&
    var id := ids[v.path];
    if Current(files, ids, w.modified, v.path)
    then (id in now <==> id in parses) && (id in now ==> now[id] == parses[id])
    else id in now && now[id] == w.parse(v.path, id)
  }

  /** These are the parses in the table after a run that has saved. */
  ghost predicate NextParses(files: map<FileId, int>, w: World, vs: seq<Visit>, ids: map<Path, FileId>,
                             parses: map<FileId, Entries>, now: map<FileId, Entries>)
  {
    && (forall id :: id in now ==> InSource(vs, ids, id))
    && (forall i :: 0 <= i < |vs| && vs[i].source ==> SourceIsNext(files, w, vs[i], ids, parses, now))
  }

  ghost predicate NextTimes(files: map<FileId, int>, f: Found, now: int, files': map<FileId, int>) {
    && (forall id :: id in files' <==> id in files || IsPending(f, id))
    && (forall id :: id in files' ==> files'[id] == if IsPending(f, id) then now else files[id])
  }

  /** What a run leaves: unless it has parsed anything, only the paths that have gone are taken
      out; otherwise all ids and the times of the files parsed anew are saved, too. */
  ghost predicate IsNext(before: Database, w: World, vs: seq<Visit>, parses: map<FileId, Entries>, f: Found,
                         after: Database, now: map<FileId, Entries>)
  {
    if f.pending == [] then after == before.(paths := Remaining(before, w)) && now == parses
    else
      && after.paths == f.ids && NextTimes(before.times, f, w.now, after.times)
      && NextParses(before.times, w, vs, f.ids, parses, now)
  }

  /** One run in Update mode over a tree with these paths. The database is again the union of
      parses, those it knows of then. If the run has parsed anything, the table is that of the
      tree exactly if it was right about every source taken for current; if not, save() is not
      called, and it takes besides that nothing was ever found in files that have gone. */
  method Run(before: Database, w: World, vs: seq<Visit>, ghost parses: map<FileId, Entries>)
    returns (after: Database, f: Found, ghost now: map<FileId, Entries>)
    requires Holds(before, parses) && IdsAreUnused(before, w, vs) && Distinct(vs) && IsParsedBy(w)
    ensures Holds(after, now) && IdsAssigned(Remaining(before, w), vs, f.ids, f.last)
    ensures PendingAre(before.times, w, vs, f) && IsNext(before, w, vs, parses, f, after, now)
    ensures IsTableOfTree(w, vs, f.ids, after.symbols) <==>
      && CurrentAreThere(before.times, w, vs, f.ids, before.symbols)
      && (f.pending == [] ==> NothingElse(vs, f.ids, parses))
  {
    var ids, dirty := Load(before, w);
    ghost var newly;
    f, newly := Explore(before, w, vs, dirty);
    after := SaveIfParsed(before, w, vs, ids, f, parses, newly);
    now := if f.pending == [] then parses else Now(parses, f, newly);
    PendingIff(before, w, vs, f);
    if f.pending == [] {
      UnsavedIsTableIff(before, w, vs, f, parses);
    } else {
      NowIsNext(before, w, vs, f, parses, newly);
      NewlyIsPending(w, f, newly);
      SavedIsTableIff(before, w, vs, f, parses, newly, after.symbols);
    }
  }

  lemma PendingIff(db: Database, w: World, vs: seq<Visit>, f: Found)
    requires VisitedTree(db, w, vs, f)
    ensures PendingAre(db.times, w, vs, f)
  {
    forall p ensures p in f.pending <==>
      exists i :: 0 <= i < |vs| && vs[i] == Visit(p, true) && !Current(db.times, f.ids, w.modified, p)
    {
      if p in f.pending {
        var i :| 0 <= i < |vs| && vs[i] == Visit(p, true);
        assert vs[i].path == p && vs[i].source;
      }
      if i :| 0 <= i < |vs| && vs[i] == Visit(p, true) && !Current(db.times, f.ids, w.modified, p) {
        assert vs[i].source && vs[i].path == p;
      }
    }
  }

  lemma CurrentNext(db: Database, w: World, vs: seq<Visit>, f: Found, parses: map<FileId, Entries>,
                    newly: map<FileId, Entries>, i: nat)
    requires VisitedTree(db, w, vs, f) && IsParsed(w, f.ids, f.pending, |f.pending|, newly) && Injective(f.ids)
    requires i < |vs| && vs[i].source && Current(db.times, f.ids, w.modified, vs[i].path)
    ensures SourceIsNext(db.times, w, vs[i], f.ids, parses, Now(parses, f, newly))
  {
    CurrentIsKept(db, w, vs, f, newly, i);
  }

  lemma StaleNext(db: Database, w: World, vs: seq<Visit>, f: Found, parses: map<FileId, Entries>,
                  newly: map<FileId, Entries>, i: nat)
    requires VisitedTree(db, w, vs, f) && IsParsed(w, f.ids, f.pending, |f.pending|, newly)
    requires i < |vs| && vs[i].source && !Current(db.times, f.ids, w.modified, vs[i].path)
    ensures SourceIsNext(db.times, w, vs[i], f.ids, parses, Now(parses, f, newly))
  {
    StaleIsParsed(db, w, vs, f, newly, i);
  }

  lemma NowIsNext(db: Database, w: World, vs: seq<Visit>, f: Found, parses: map<FileId, Entries>,
                  newly: map<FileId, Entries>)
    requires VisitedTree(db, w, vs, f) && IsParsed(w, f.ids, f.pending, |f.pending|, newly) && Injective(f.ids)
    requires parses.Keys <= db.times.Keys
    ensures NextParses(db.times, w, vs, f.ids, parses, Now(parses, f, newly))
  {
    var now := Now(parses, f, newly);
    forall id | id in now ensures InSource(vs, f.ids, id) {
      OnlySourcesAreThere(db, w, vs, f, parses, newly, id);
    }
    forall i | 0 <= i < |vs| && vs[i].source
      ensures SourceIsNext(db.times, w, vs[i], f.ids, parses, now)
    {
      if Current(db.times, f.ids, w.modified, vs[i].path) {
        CurrentNext(db, w, vs, f, parses, newly, i);
      } else {
        StaleNext(db, w, vs, f, parses, newly, i);
      }
    }
  }

  lemma NewlyIsPending(w: World, f: Found, newly: map<FileId, Entries>)
    requires IsParsed(w, f.ids, f.pending, |f.pending|, newly)
    ensures forall id :: id in newly <==> IsPending(f, id)
  {
    forall id ensures id in newly <==> IsPending(f, id) {
      if id in newly {
        var i :| 0 <= i < |f.pending| && f.pending[i] in f.ids && f.ids[f.pending[i]] == id;
        assert f.pending[i] in f.pending;
      }
      if IsPending(f, id) {
        var p :| p in f.pending && p in f.ids && f.ids[p] == id;
        var i :| 0 <= i < |f.pending| && f.pending[i] == p;
      }
    }
  }

  /** When a run is right about the files it takes for current: those that had an id still have
      what was found in them, and no new one meets with a time that a file that has gone has left
      behind under its id, not older than itself. */
  lemma CurrentAreThereIf(db: Database, w: World, vs: seq<Visit>, parses: map<FileId, Entries>,
                          ids: map<Path, FileId>, last: nat)
    requires IsUnion(db.symbols, parses) && IdsAssigned(Remaining(db, w), vs, ids, last)
    requires forall i :: 0 <= i < |vs| && vs[i].source ==>
      Current(db.times, Remaining(db, w), w.modified, vs[i].path) ==>
        var id := db.paths[vs[i].path];
        id in parses && parses[id] == w.parse(vs[i].path, id)
    requires forall i :: 0 <= i < |vs| && vs[i].source && vs[i].path !in Remaining(db, w) ==>
      !Current(db.times, ids, w.modified, vs[i].path)
    ensures CurrentAreThere(db.times, w, vs, ids, db.symbols)
  {
    forall i | 0 <= i < |vs| && vs[i].source && Current(db.times, ids, w.modified, vs[i].path)
      ensures SaysOfSource(w, vs[i], ids, db.symbols)
    {
      assert Current(db.times, Remaining(db, w), w.modified, vs[i].path);
    }
  }

  /** The object: the database, and what the last run has found out. */
  class GRTags {
    var db: Database
    var found: Found
    ghost var parses: map<FileId, Entries>

    ghost predicate Valid()
      reads this
    {
      Holds(db, parses)
    }

    constructor (db: Database, ghost parses: map<FileId, Entries>)
      requires Holds(db, parses)
      ensures Valid() && this.db == db && this.parses == parses
    {
      this.db, this.parses := db, parses;
      found := Found(map[], 0, [], {}, map[], map[]);
    }

    /** exec() in Update mode. */
    method Update(w: World, vs: seq<Visit>)
      requires Valid() && IdsAreUnused(db, w, vs) && Distinct(vs) && IsParsedBy(w)
      modifies this
      ensures Valid() && IdsAssigned(Remaining(old(db), w), vs, found.ids, found.last)
      ensures PendingAre(old(db).times, w, vs, found) && IsNext(old(db), w, vs, old(parses), found, db, parses)
      ensures IsTableOfTree(w, vs, found.ids, db.symbols) <==>
        && CurrentAreThere(old(db).times, w, vs, found.ids, old(db).symbols)
        && (found.pending == [] ==> NothingElse(vs, found.ids, old(parses)))
    {
      db, found, parses := Run(db, w, vs, parses);
    }
  }

  // --- Two runs after which the table is not that of the tree ---

  lemma FirstIsIn(paths: seq<Path>)
    ensures paths == [] || exists p :: p in paths
  {
    if paths != [] {
      assert paths[0] in paths;
    }
  }

  lemma NothingPending(files: map<FileId, int>, w: World, vs: seq<Visit>, f: Found)
    requires PendingAre(files, w, vs, f)
    requires forall i :: 0 <= i < |vs| && vs[i].source ==> Current(files, f.ids, w.modified, vs[i].path)
    ensures f.pending == []
  {
    forall p ensures p !in f.pending {
    }
    FirstIsIn(f.pending);
  }

  /** A file that is gone, with a symbol: nothing is pending, so the symbol stays. */
  method VanishedStays(b: Path, n: string, l: Location, w: World) returns (after: Database, f: Found)
    requires !w.present(b) && l.fileId == 1 && IsParsedBy(w)
    ensures f.pending == [] && At(after.symbols, n, l) == Some(false)
    ensures !IsTableOfTree(w, [], f.ids, after.symbols)
  {
    var symbols := map[n := map[l := false]];
    var before := Database(map[b := 1], map[1 := 10], symbols);
    ghost var parses := map[1 := symbols];
    assert l in symbols[n];
    assert IsUnion(symbols, parses);
    assert Remaining(before, w) == map[];
    ghost var now;
    after, f, now := Run(before, w, [], parses);
    NothingPending(before.times, w, [], f);
    assert At(symbols, n, l).Some?;
  }

  lemma CountOfTwo(ids: map<Path, FileId>, vs: seq<Visit>)
    requires |vs| == 2 && vs[0].path in ids && vs[1].path !in ids
    ensures NewCount(ids, vs, 2) == 1
  {
    assert NewCount(ids, vs, 1) == 0;
  }

  lemma SaysNotOfSource(w: World, v: Visit, ids: map<Path, FileId>, symbols: Entries, parses: map<FileId, Entries>)
    requires IsUnion(symbols, parses) && v.path in ids && ids[v.path] !in parses
    requires !SaysNothing(w.parse(v.path, ids[v.path]), ids[v.path])
    ensures !SaysOfSource(w, v, ids, symbols)
  {
    var id := ids[v.path];
    var n, l: Location :| l.fileId == id && At(w.parse(v.path, id), n, l) != None;
    assert At(symbols, n, l) == None;
  }

  lemma OneRemains(a: Path, b: Path, w: World, db: Database)
    requires a != b && w.present(a) && !w.present(b) && db.paths == map[a := 1, b := 2]
    ensures Remaining(db, w) == map[a := 1] && |Remaining(db, w)| == 1
  {
    assert Remaining(db, w) == map[a := 1];
    assert Remaining(db, w).Keys == {a};
  }

  lemma NextIsTwo(a: Path, vs: seq<Visit>, ids: map<Path, FileId>, last: nat)
    requires |vs| == 2 && vs[0].path == a && vs[1].path != a && |map[a := 1]| == 1
    requires IdsAssigned(map[a := 1], vs, ids, last)
    ensures vs[0].path in ids && ids[vs[0].path] == 1 && vs[1].path in ids && ids[vs[1].path] == 2
  {
    var ids0: map<Path, FileId> := map[a := 1];
    CountOfTwo(ids0, vs);
    assert vs[1].path in ids && vs[1].path !in ids0;
  }

  lemma BothAreCurrent(files: map<FileId, int>, w: World, vs: seq<Visit>, ids: map<Path, FileId>)
    requires |vs| == 2 && files == map[1 := 10, 2 := 10]
    requires vs[0].path in ids && ids[vs[0].path] == 1 && vs[1].path in ids && ids[vs[1].path] == 2
    requires w.modified(vs[0].path) <= 10 && w.modified(vs[1].path) <= 10
    ensures forall i :: 0 <= i < |vs| && vs[i].source ==> Current(files, ids, w.modified, vs[i].path)
  {
  }

  /** A new file gets the id of one that is gone, with its time, and is not parsed: a is as it
      was, b is gone, and d was last modified before b was parsed. */
  method LeftoverTimeHides(a: Path, b: Path, d: Path, w: World) returns (after: Database, f: Found)
    requires a != b && a != d && b != d && w.present(a) && !w.present(b)
    requires w.modified(a) <= 10 && w.modified(d) <= 10
    requires IsParsedBy(w) && !SaysNothing(w.parse(d, 2), 2)
    ensures d in f.ids && f.ids[d] == 2 && f.pending == []
    ensures !IsTableOfTree(w, [Visit(a, true), Visit(d, true)], f.ids, after.symbols)
  {
    var before := Database(map[a := 1, b := 2], map[1 := 10, 2 := 10], map[]);
    var vs := [Visit(a, true), Visit(d, true)];
    OneRemains(a, b, w, before);
    CountOfTwo(Remaining(before, w), vs);
    ghost var now;
    after, f, now := Run(before, w, vs, map[]);
    NextIsTwo(a, vs, f.ids, f.last);
    BothAreCurrent(before.times, w, vs, f.ids);
    NothingPending(before.times, w, vs, f);
    SaysNotOfSource(w, vs[1], f.ids, after.symbols, map[]);
  }

  // --- Ids that are given out twice ---

  /** The ids last0 + 1 to last have gone to new paths, one to each. */
  ghost predicate GivenOut(ids0: map<Path, FileId>, last0: nat, ids: map<Path, FileId>, last: nat) {
    && last0 <= last
    && (forall p :: p in ids0 ==> p in ids && ids[p] == ids0[p])
    && (forall p :: p in ids && p !in ids0 ==> last0 < ids[p] <= last)
    && (forall p, q :: p in ids && q in ids && p !in ids0 && q !in ids0 && ids[p] == ids[q] ==> p == q)
    && (forall k {:trigger HasNewId(ids0, ids, k)} :: last0 < k <= last ==> HasNewId(ids0, ids, k))
  }

  ghost predicate HasNewId(ids0: map<Path, FileId>, ids: map<Path, FileId>, k: int) {
    exists p :: p in ids && p !in ids0 && ids[p] == k
  }

  lemma GiveOutNext(ids0: map<Path, FileId>, last0: nat, ids: map<Path, FileId>, last: nat, path: Path)
    requires GivenOut(ids0, last0, ids, last) && path !in ids && last + 1 < 0x8000_0000
    ensures GivenOut(ids0, last0, ids[path := last + 1], last + 1)
  {
    var ids' := ids[path := last + 1];
    forall k | last0 < k <= last + 1 ensures HasNewId(ids0, ids', k) {
      if k <= last {
        assert HasNewId(ids0, ids, k);
        var p :| p in ids && p !in ids0 && ids[p] == k;
        assert p in ids' && ids'[p] == k;
      } else {
        assert path in ids' && path !in ids0 && ids'[path] == k;
      }
    }
  }

  lemma GivenOutStarts(ids0: map<Path, FileId>, vs: seq<Visit>)
    ensures GivenOut(ids0, |ids0|, ids0, |ids0|) && OnlyVisited(ids0, vs, 0, ids0)
  {
  }

  /** The first n paths have their ids. */
  ghost predicate Assigned(ids0: map<Path, FileId>, vs: seq<Visit>, n: nat, ids: map<Path, FileId>, last: nat)
    requires n <= |vs|
  {
    last == |ids0| + NewCount(ids0, vs, n) && GivenOut(ids0, |ids0|, ids, last) && OnlyVisited(ids0, vs, n, ids)
  }

  method AssignNext(ids0: map<Path, FileId>, vs: seq<Visit>, i: nat, ids: map<Path, FileId>, last: nat)
    returns (ids': map<Path, FileId>, last': nat)
    requires i < |vs| && Distinct(vs) && |ids0| + NewCount(ids0, vs, |vs|) < 0x8000_0000
    requires last == |ids0| + NewCount(ids0, vs, i)
    requires GivenOut(ids0, |ids0|, ids, last) && OnlyVisited(ids0, vs, i, ids)
    ensures last' == |ids0| + NewCount(ids0, vs, i + 1)
    ensures GivenOut(ids0, |ids0|, ids', last') && OnlyVisited(ids0, vs, i + 1, ids')
  {
    NewCountGrows(ids0, vs, i + 1, |vs|);
    assert vs[i].path in ids <==> vs[i].path in ids0;
    if vs[i].path !in ids {
      GiveOutNext(ids0, |ids0|, ids, last, vs[i].path);
    }
    var id;
    ids', last', id := InsertFile(ids, last, vs[i].path);
    OnlyVisitedNext(ids0, vs, i, ids, ids');
  }

  /** Location::insertFile for all paths of a tree, whatever ids there are: no two paths end up
      with the same id exactly if none of the ids that follow the number of paths was in use. */
  method AssignIds(ids0: map<Path, FileId>, vs: seq<Visit>) returns (ids: map<Path, FileId>)
    requires Injective(ids0) && Distinct(vs) && |ids0| + NewCount(ids0, vs, |vs|) < 0x8000_0000
    ensures Injective(ids) <==> NoneBetween(ids0, |ids0|, |ids0| + NewCount(ids0, vs, |vs|))
  {
    GivenOutStarts(ids0, vs);
    ids := ids0;
    var last: nat := |ids0|;
    for i := 0 to |vs|
      invariant Assigned(ids0, vs, i, ids, last)
    {
      ids, last := AssignNext(ids0, vs, i, ids, last);
    }
    DistinctIff(ids0, |ids0|, ids, last);
  }

  lemma OnlyVisitedNext(ids0: map<Path, FileId>, vs: seq<Visit>, i: nat, ids: map<Path, FileId>,
                        ids': map<Path, FileId>)
    requires i < |vs| && OnlyVisited(ids0, vs, i, ids) && ids'.Keys == ids.Keys + {vs[i].path}
    ensures OnlyVisited(ids0, vs, i + 1, ids')
  {
    forall p | p in ids' && p !in ids0 ensures exists j :: 0 <= j < i + 1 && vs[j].path == p {
      if p == vs[i].path {
        assert vs[i].path == p;
      }
    }
  }

  lemma DistinctIff(ids0: map<Path, FileId>, last0: nat, ids: map<Path, FileId>, last: nat)
    requires Injective(ids0) && GivenOut(ids0, last0, ids, last)
    ensures Injective(ids) <==> NoneBetween(ids0, last0, last)
  {
    if Injective(ids) {
      forall p | p in ids0 ensures !(last0 < ids0[p] <= last) {
        var k := ids0[p];
        assert last0 < k <= last ==> HasNewId(ids0, ids, k);
      }
    }
  }

  /** Why IdsAreUnused is needed: a path that has gone leaves a gap behind, and the next new file
      gets an id that is in use. Here b, with id 1, is gone and d is new; d gets the id of c. */
  method IdsCanCollide(b: Path, c: Path, d: Path, w: World) returns (ids: map<Path, FileId>)
    requires b != c && c != d && b != d && !w.present(b) && w.present(c) && w.present(d)
    ensures d in ids && c in ids && ids[d] == ids[c]
  {
    var db := Database(map[b := 1, c := 2], map[1 := 10, 2 := 10], map[]);
    var files, dirty := LoadTimes(db);
    ids, dirty := LoadPaths(db, w, dirty);
    assert ids == map[c := 2];
    assert ids.Keys == {c};
    var last := |ids|;
    var id;
    ids, last, id := InsertFile(ids, last, d);
  }
}
