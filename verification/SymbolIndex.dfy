/** The incremental symbol index: merging the tables of a translation unit, purging dirty
    files, and what the tables mean after any such run
    (src/Project.cpp, src/RTags.cpp, src/IndexerJob.cpp). */
module SymbolIndex {
  import opened Locations
  import opened Sets
  import opened Cursors

  type UsrMap = map<string, set<Location>>
  type ReferenceMap = map<Location, set<Location>>
  type DependencyMap = map<FileId, set<FileId>>

  /** What indexing one translation unit produced. */
  datatype IndexData = IndexData(
    symbols: SymbolMap, usrMap: UsrMap, references: ReferenceMap,
    symbolNames: UsrMap, dependencies: DependencyMap)
  {
    /** The indexer files a USR only under the location of a symbol it has recorded. */
    predicate UsrsAreSymbols() {
      forall u, l :: u in usrMap && l in usrMap[u] ==> l in symbols
    }
  }

  // --- The facts a history of merges and purges establishes ---

  /** One thing the index can say. */
  datatype Fact =
    | Key(l: Location)                        // l is a symbol
    | Target(a: Location, b: Location)        // b is a declared target of symbol a
    | Reference(a: Location, b: Location)     // b refers to symbol a
    | Usr(u: string, l: Location)             // l is filed under USR u
    | Name(n: string, l: Location)            // l is filed under symbol name n
    | IncludedBy(h: FileId, s: FileId)        // file s includes file h; never purged
    | Described(l: Location, info: CursorInfo)   // a unit described the symbol l so
  {
    /** Says something about a location in a dirty file. */
    predicate Touches(dirty: set<FileId>) {
      match this
      case Key(l) => l.fileId in dirty
      case Target(a, b) => a.fileId in dirty || b.fileId in dirty
      case Reference(a, b) => a.fileId in dirty || b.fileId in dirty
      case Usr(_, l) => l.fileId in dirty
      case Name(_, l) => l.fileId in dirty
      case IncludedBy(_, _) => false
      case Described(l, _) => l.fileId in dirty
    }
  }

  type Facts = iset<Fact>

  ghost function Without(f: Facts, dirty: set<FileId>): Facts {
    iset x | x in f && !x.Touches(dirty)
  }

  /** Two locations filed under one USR. */
  ghost predicate Siblings(f: Facts, a: Location, b: Location) {
    a != b && exists u :: Usr(u, a) in f && Usr(u, b) in f
  }

  function At<K, V>(m: map<K, set<V>>, u: K): set<V> {
    if u in m then m[u] else {}
  }

  function TargetsIn(m: SymbolMap, l: Location): set<Location> {
    if l in m then m[l].targets else {}
  }

  function ReferencesIn(m: SymbolMap, l: Location): set<Location> {
    if l in m then m[l].references else {}
  }

  ghost predicate SymbolsSay(m: SymbolMap, x: Fact) {
    match x
    case Key(a) => a in m
    case Target(a, b) => b in TargetsIn(m, a)
    case Reference(a, b) => b in ReferencesIn(m, a)
    case _ => false
  }

  ghost function SymbolFacts(m: SymbolMap): Facts {
    iset x: Fact | SymbolsSay(m, x)
  }

  ghost function UsrFacts(usr: UsrMap): Facts {
    iset x: Fact | x.Usr? && x.l in At(usr, x.u)
  }

  /** An entry (k, refs) of a reference map says that k refers to each location of refs. */
  ghost predicate ReferencesSay(refs: ReferenceMap, x: Fact) {
    match x
    case Key(a) => exists k :: k in refs && a in refs[k]
    case Reference(a, k) => a in At(refs, k)
    case _ => false
  }

  ghost function ReferenceFacts(refs: ReferenceMap): Facts {
    iset x: Fact | ReferencesSay(refs, x)
  }

  ghost function NameFacts(names: UsrMap): Facts {
    iset x: Fact | x.Name? && x.l in At(names, x.n)
  }

  ghost function DependencyFacts(deps: DependencyMap): Facts {
    iset x: Fact | x.IncludedBy? && x.s in At(deps, x.h)
  }

  /** How a unit describes its symbols, with the prefixes that merging gives to names of types. */
  ghost function RecordFacts(m: SymbolMap): Facts {
    iset x: Fact | x.Described? && x.l in m && x.info == Prefixed(m[x.l])
  }

  ghost function UnitFacts(d: IndexData): Facts {
    SymbolFacts(d.symbols) + UsrFacts(d.usrMap) + ReferenceFacts(d.references)
    + NameFacts(d.symbolNames) + DependencyFacts(d.dependencies) + RecordFacts(d.symbols)
  }

  // --- What the tables must hold ---

  ghost predicate SymbolsHold(symbols: SymbolMap, f: Facts) {
    && (forall l {:trigger l in symbols} {:trigger Key(l) in f} :: l in symbols <==> Key(l) in f)
    && (forall a, b {:trigger b in symbols[a].targets} {:trigger Target(a, b) in f} :: a in symbols ==>
          (b in symbols[a].targets <==> Target(a, b) in f || Siblings(f, a, b)))
    && (forall a, b {:trigger b in symbols[a].references} {:trigger Reference(a, b) in f} :: a in symbols ==>
          (b in symbols[a].references <==> Reference(a, b) in f))
  }

  ghost predicate UsrHolds(usr: UsrMap, f: Facts) {
    forall u, l {:trigger l in usr[u]} {:trigger Usr(u, l) in f} :: (u in usr && l in usr[u]) <==> Usr(u, l) in f
  }

  ghost predicate NamesHold(names: UsrMap, f: Facts) {
    forall n, l {:trigger l in names[n]} {:trigger Name(n, l) in f} ::
      (n in names && l in names[n]) <==> Name(n, l) in f
  }

  ghost predicate DependenciesHold(deps: DependencyMap, f: Facts) {
    forall h, s {:trigger s in deps[h]} {:trigger IncludedBy(h, s) in f} ::
      (h in deps && s in deps[h]) <==> IncludedBy(h, s) in f
  }

  /** Whatever has targets or references or a USR is a key. */
  ghost predicate AboutKeys(f: Facts) {
    && (forall a, b {:trigger Target(a, b) in f} :: Target(a, b) in f ==> Key(a) in f)
    && (forall a, b {:trigger Reference(a, b) in f} :: Reference(a, b) in f ==> Key(a) in f)
    && (forall u, l {:trigger Usr(u, l) in f} :: Usr(u, l) in f ==> Key(l) in f)
  }

  /** The symbol and USR tables say exactly what the facts say: the targets of a symbol are
      those some unit declared, and its siblings under a common USR. */
  ghost predicate Represents(symbols: SymbolMap, usr: UsrMap, f: Facts) {
    SymbolsHold(symbols, f) && UsrHolds(usr, f) && AboutKeys(f)
  }

  /** Kind, name and what goes with them are set together. */
  predicate SameDescription(i: CursorInfo, j: CursorInfo) {
    && i.symbolLength == j.symbolLength && i.symbolName == j.symbolName
    && i.kind == j.kind && i.typeKind == j.typeKind && i.enumValue == j.enumValue
  }

  predicate SameExtent(i: CursorInfo, j: CursorInfo) {
    i.start == j.start && i.end == j.end
  }

  /** Length, kind and name of a record are those of one description of the symbol, its extent is
      that of one, and each is there if any description has it. */
  ghost predicate IsRecordOf(i: CursorInfo, l: Location, f: Facts) {
    && (SameDescription(i, NO_CURSOR) || exists j :: Described(l, j) in f && SameDescription(i, j))
    && (SameExtent(i, NO_CURSOR) || exists j :: Described(l, j) in f && SameExtent(i, j))
    && (forall j :: Described(l, j) in f && j.symbolLength != 0 ==> i.symbolLength != 0)
    && (forall j :: Described(l, j) in f && j.start != -1 && j.end != -1 ==> i.start != -1 || i.end != -1)
  }

  ghost predicate RecordsHold(symbols: SymbolMap, f: Facts) {
    && (forall l :: l in symbols ==> IsRecordOf(symbols[l], l, f))
    && (forall l, j {:trigger Described(l, j) in f} :: Described(l, j) in f ==> l in symbols)
  }

  /** Every two locations under one USR are symbols that target each other. */
  ghost predicate Linked(symbols: SymbolMap, usr: UsrMap) {
    forall u, a, b :: u in usr && a in usr[u] && b in usr[u] ==>
                        a in symbols && (a != b ==> b in symbols[a].targets)
  }

  lemma RepresentsLinked(symbols: SymbolMap, usr: UsrMap, f: Facts)
    requires Represents(symbols, usr, f)
    ensures Linked(symbols, usr)
  {
    forall u, a, b | u in usr && a in usr[u] && b in usr[u]
      ensures a in symbols && (a != b ==> b in symbols[a].targets)
    {
      assert Usr(u, a) in f && Usr(u, b) in f;
    }
  }

  // --- Purging ---

  function DirtySymbolsSpec(m: SymbolMap, dirty: set<FileId>): SymbolMap {
    map l | l in m && l.fileId !in dirty :: m[l].Dirty(dirty).0
  }

  function DirtyGroupsSpec(m: UsrMap, dirty: set<FileId>): UsrMap {
    map u | u in m && CleanSet(m[u], dirty) != {} :: CleanSet(m[u], dirty)
  }

  method DirtySymbols(m: SymbolMap, dirty: set<FileId>) returns (r: SymbolMap)
    ensures r == DirtySymbolsSpec(m, dirty)
  {
    r := m;
    var todo := m.Keys;
    while todo != {}
      invariant todo <= m.Keys && todo <= r.Keys
      invariant forall l :: l in todo ==> r[l] == m[l]
      invariant forall l :: l in r && l !in todo ==> l in m && l.fileId !in dirty && r[l] == m[l].Dirty(dirty).0
      invariant forall l :: l in m && l.fileId !in dirty ==> l in r
    {
      var l :| l in todo;
      todo := todo - {l};
      if l.fileId in dirty {
        r := r - {l};
      } else {
        r := r[l := r[l].Dirty(dirty).0];
      }
    }
  }

  /** dirtyUsr and dirtySymbolNames: empties of a purge are erased. */
  method DirtyGroups(m: UsrMap, dirty: set<FileId>) returns (r: UsrMap)
    ensures r == DirtyGroupsSpec(m, dirty)
  {
    r := m;
    var todo := m.Keys;
    while todo != {}
      invariant todo <= m.Keys && todo <= r.Keys
      invariant forall u :: u in todo ==> r[u] == m[u]
      invariant forall u :: u in r && u !in todo ==> u in m && r[u] == CleanSet(m[u], dirty) != {}
      invariant forall u :: u in m && CleanSet(m[u], dirty) != {} ==> u in r
    {
      var u :| u in todo;
      todo := todo - {u};
      var locations := CleanSet(r[u], dirty);
      if locations == {} {
        r := r - {u};
      } else {
        r := r[u := locations];
      }
    }
  }

  lemma DirtyRepresents(symbols: SymbolMap, usr: UsrMap, f: Facts, dirty: set<FileId>)
    requires Represents(symbols, usr, f)
    ensures Represents(DirtySymbolsSpec(symbols, dirty), DirtyGroupsSpec(usr, dirty), Without(f, dirty))
  {
    DirtyUsrHolds(usr, f, dirty);
    DirtySymbolsHold(symbols, f, dirty);
  }

  lemma DirtySymbolsHold(symbols: SymbolMap, f: Facts, dirty: set<FileId>)
    requires SymbolsHold(symbols, f)
    ensures SymbolsHold(DirtySymbolsSpec(symbols, dirty), Without(f, dirty))
  {
    var s', g := DirtySymbolsSpec(symbols, dirty), Without(f, dirty);
    forall a, b | a in s'
      ensures b in s'[a].targets <==> Target(a, b) in g || Siblings(g, a, b)
    {
      assert b in s'[a].targets <==> b in symbols[a].targets && b.fileId !in dirty;
      SiblingsWithout(f, dirty, a, b);
    }
    forall a, b | a in s' ensures b in s'[a].references <==> Reference(a, b) in g {
      assert b in s'[a].references <==> b in symbols[a].references && b.fileId !in dirty;
    }
  }

  lemma DirtyRecordsHold(symbols: SymbolMap, f: Facts, dirty: set<FileId>)
    requires RecordsHold(symbols, f)
    ensures RecordsHold(DirtySymbolsSpec(symbols, dirty), Without(f, dirty))
  {
    var r, g := DirtySymbolsSpec(symbols, dirty), Without(f, dirty);
    forall l | l in r ensures IsRecordOf(r[l], l, g) {
      assert forall j :: Described(l, j) in g <==> Described(l, j) in f;
      SameRecord(symbols[l], r[l], l, f, g);
    }
  }

  /** What a record is of depends on its scalar fields alone. */
  lemma SameRecord(i: CursorInfo, i': CursorInfo, l: Location, f: Facts, g: Facts)
    requires IsRecordOf(i, l, f) && SameDescription(i, i') && SameExtent(i, i')
    requires forall j :: Described(l, j) in g <==> Described(l, j) in f
    ensures IsRecordOf(i', l, g)
  {
  }

  lemma SiblingsWithout(f: Facts, dirty: set<FileId>, a: Location, b: Location)
    ensures Siblings(Without(f, dirty), a, b) <==>
            Siblings(f, a, b) && a.fileId !in dirty && b.fileId !in dirty
  {
    var g := Without(f, dirty);
    if Siblings(f, a, b) && a.fileId !in dirty && b.fileId !in dirty {
      var u :| Usr(u, a) in f && Usr(u, b) in f;
      assert Usr(u, a) in g && Usr(u, b) in g;
    }
  }

  lemma DirtyUsrHolds(usr: UsrMap, f: Facts, dirty: set<FileId>)
    requires UsrHolds(usr, f)
    ensures UsrHolds(DirtyGroupsSpec(usr, dirty), Without(f, dirty))
  {
    forall u, l | Usr(u, l) in f && l.fileId !in dirty ensures l in CleanSet(usr[u], dirty) {
    }
  }

  lemma DirtyNamesHold(names: UsrMap, f: Facts, dirty: set<FileId>)
    requires NamesHold(names, f)
    ensures NamesHold(DirtyGroupsSpec(names, dirty), Without(f, dirty))
  {
    forall n, l | Name(n, l) in f && l.fileId !in dirty ensures l in CleanSet(names[n], dirty) {
    }
  }

  // --- Merging a unit ---

  /** The prefixes the merge gives to the names of types. */
  function Prefixed(c: CursorInfo): CursorInfo {
    match c.kind
    case ClassDecl | ClassTemplate => c.(symbolName := "class " + c.symbolName)
    case StructDecl => c.(symbolName := "struct " + c.symbolName)
    case UnionDecl => c.(symbolName := "union " + c.symbolName)
    case _ => c
  }

  function WriteCursorsSpec(symbols: SymbolMap, current: SymbolMap): SymbolMap {
    map l | l in current.Keys + symbols.Keys ::
      if l !in current then Prefixed(symbols[l])
      else if l in symbols then current[l].Unite(Prefixed(symbols[l])).0
      else current[l]
  }

  /** The record of a symbol, with the kind of a type before its name. */
  ghost predicate IsPrefixed(c: CursorInfo, r: CursorInfo) {
    && r == c.(symbolName := r.symbolName)
    && (c.kind in {ClassDecl, ClassTemplate} ==> r.symbolName == "class " + c.symbolName)
    && (c.kind == StructDecl ==> r.symbolName == "struct " + c.symbolName)
    && (c.kind == UnionDecl ==> r.symbolName == "union " + c.symbolName)
    && (c.kind !in {ClassDecl, ClassTemplate, StructDecl, UnionDecl} ==> r.symbolName == c.symbolName)
  }

  /** Each symbol comes in with its prefix: as it is where there was none, united otherwise. */
  method WriteCursors(symbols: SymbolMap, current: SymbolMap) returns (r: SymbolMap)
    ensures r.Keys == current.Keys + symbols.Keys
    ensures forall l :: l in current && l !in symbols ==> r[l] == current[l]
    ensures forall l :: l in symbols && l !in current ==> IsPrefixed(symbols[l], r[l])
    ensures forall l :: l in symbols && l in current ==>
      exists c :: IsPrefixed(symbols[l], c) && r[l] == current[l].Unite(c).0
    ensures r == WriteCursorsSpec(symbols, current)
  {
    r := WriteEach(symbols, current);
    forall l | l in symbols
      ensures IsPrefixed(symbols[l], Prefixed(symbols[l]))
    {
    }
  }

  method WriteEach(symbols: SymbolMap, current: SymbolMap) returns (r: SymbolMap)
    ensures r == WriteCursorsSpec(symbols, current)
  {
    r := current;
    if symbols != map[] {
      var s := symbols;
      var todo := symbols.Keys;
      while todo != {}
        invariant todo <= symbols.Keys == s.Keys
        invariant forall l :: l in todo ==> s[l] == symbols[l]
        invariant forall l :: l in symbols && l !in todo ==> s[l] == Prefixed(symbols[l])
        invariant current == map[] ==> r == map[]
        invariant current != map[] ==> r.Keys == current.Keys + (symbols.Keys - todo)
        invariant current != map[] ==>
          forall l :: l in r && (l in todo || l !in symbols) ==> l in current && r[l] == current[l]
        invariant current != map[] ==>
          forall l :: l in symbols && l !in todo ==> r[l] == WriteCursorsSpec(symbols, current)[l]
      {
        var l :| l in todo;
        todo := todo - {l};
        s := s[l := Prefixed(s[l])];
        if r != map[] {
          if l !in r {
            r := r[l := s[l]];
          } else {
            r := r[l := r[l].Unite(s[l]).0];
          }
        }
      }
      if r == map[] {
        r := s;
      }
    }
  }

  function JoinCursorsSpec(symbols: SymbolMap, locations: set<Location>): SymbolMap {
    map l | l in symbols ::
      if l in locations then symbols[l].(targets := symbols[l].targets + (locations - {l})) else symbols[l]
  }

  method JoinCursors(symbols: SymbolMap, locations: set<Location>) returns (r: SymbolMap)
    ensures r == JoinCursorsSpec(symbols, locations)
  {
    r := symbols;
    var todo := locations;
    while todo != {}
      invariant todo <= locations
      invariant r.Keys == symbols.Keys
      invariant forall l :: l in r ==>
        r[l] == if l in locations - todo then JoinCursorsSpec(symbols, locations)[l] else symbols[l]
    {
      var l :| l in todo;
      todo := todo - {l};
      if l in r {
        var cursorInfo := r[l];
        var inner := locations;
        while inner != {}
          invariant inner <= locations
          invariant cursorInfo == symbols[l].(targets := symbols[l].targets + (locations - inner - {l}))
        {
          var i :| i in inner;
          inner := inner - {i};
          if i != l {
            cursorInfo := cursorInfo.(targets := cursorInfo.targets + {i});
          }
        }
        r := r[l := cursorInfo];
      }
    }
  }

  /** writeUsr: the join is skipped when the USR brought nothing new; the tables
      still end up saying exactly what the facts say. */
  method WriteUsr(usr: UsrMap, current: UsrMap, symbols: SymbolMap, ghost f: Facts)
    returns (usr': UsrMap, symbols': SymbolMap)
    requires Represents(symbols, current, f)
    requires forall u, l :: u in usr && l in usr[u] ==> Key(l) in f
    ensures Represents(symbols', usr', f + UsrFacts(usr))
    ensures SameButTargets(symbols, symbols')
  {
    usr', symbols' := current, symbols;
    var todo := usr.Keys;
    ghost var g := f;
    assert UsrFacts(usr - todo) == iset{};
    while todo != {}
      invariant todo <= usr.Keys
      invariant f <= g
      invariant g == f + UsrFacts(usr - todo)
      invariant Represents(symbols', usr', g)
      invariant SameButTargets(symbols, symbols')
    {
      var u :| u in todo;
      UsrFactsStep(f, usr, todo, u);
      usr', symbols' := WriteGroup(u, usr[u], usr', symbols', g);
      todo := todo - {u};
      g := g + GroupFacts(u, usr[u]);
    }
    assert usr == usr - todo;
  }

  /** One round of the loop of writeUsr. */
  method WriteGroup(u: string, locations: set<Location>, current: UsrMap, symbols: SymbolMap, ghost f: Facts)
    returns (usr': UsrMap, symbols': SymbolMap)
    requires Represents(symbols, current, f)
    requires forall l :: l in locations ==> Key(l) in f
    ensures Represents(symbols', usr', f + GroupFacts(u, locations))
    ensures SameButTargets(symbols, symbols')
  {
    var value := if u in current then current[u] else {};
    var count := |locations - value|;
    var joined := value + locations;
    usr', symbols' := current[u := joined], symbols;
    if count != 0 && |joined| > 1 {
      symbols' := JoinCursors(symbols, joined);
    }
    GroupJoins(symbols, current, f, u, locations);
  }

  /** Nothing but the targets of the symbols differs. */
  ghost predicate SameButTargets(m: SymbolMap, r: SymbolMap) {
    r.Keys == m.Keys && forall l :: l in m ==> r[l] == m[l].(targets := r[l].targets)
  }

  ghost function GroupFacts(u: string, locations: set<Location>): Facts {
    iset x: Fact | x.Usr? && x.u == u && x.l in locations
  }

  lemma UsrFactsStep(f: Facts, usr: UsrMap, todo: set<string>, u: string)
    requires u in todo && todo <= usr.Keys
    ensures f + UsrFacts(usr - todo) + GroupFacts(u, usr[u]) == f + UsrFacts(usr - (todo - {u}))
  {
  }

  /** Filing locations under one USR: joining is needed only when the USR grew to several. */
  lemma GroupJoins(symbols: SymbolMap, usr: UsrMap, f: Facts, u: string, locations: set<Location>)
    requires Represents(symbols, usr, f)
    requires forall l :: l in locations ==> Key(l) in f
    ensures var value := if u in usr then usr[u] else {};
            var joined := value + locations;
            Represents(if |locations - value| != 0 && |joined| > 1 then JoinCursorsSpec(symbols, joined) else symbols,
                       usr[u := joined], f + GroupFacts(u, locations))
  {
    var value := if u in usr then usr[u] else {};
    var g := f + GroupFacts(u, locations);
    var joined := value + locations;
    assert forall l :: Usr(u, l) in f <==> l in value;
    assert UsrHolds(usr[u := joined], g);
    SiblingsAfter(f, u, value, locations);
    if |locations - value| != 0 && |joined| > 1 {
      JoinHolds(symbols, f, g, joined);
    } else {
      NoJoinNeeded(f, u, value, locations);
      SiblingsUnchanged(symbols, f, g);
    }
  }

  lemma SiblingsAfter(f: Facts, u: string, value: set<Location>, locations: set<Location>)
    requires forall l :: Usr(u, l) in f <==> l in value
    ensures forall a, b :: Siblings(f + GroupFacts(u, locations), a, b) <==>
              Siblings(f, a, b) || (a != b && a in value + locations && b in value + locations)
  {
    var g := f + GroupFacts(u, locations);
    forall a, b
      ensures Siblings(g, a, b) <==> Siblings(f, a, b) || (a != b && a in value + locations && b in value + locations)
    {
      if a != b && a in value + locations && b in value + locations {
        assert Usr(u, a) in g && Usr(u, b) in g;
      }
      if Siblings(f, a, b) {
        var w :| Usr(w, a) in f && Usr(w, b) in f;
        assert Usr(w, a) in g && Usr(w, b) in g;
      }
      if Siblings(g, a, b) {
        var w :| Usr(w, a) in g && Usr(w, b) in g;
        assert w != u ==> Usr(w, a) in f && Usr(w, b) in f;
      }
    }
  }

  lemma NoJoinNeeded(f: Facts, u: string, value: set<Location>, locations: set<Location>)
    requires forall l :: Usr(u, l) in f <==> l in value
    requires |locations - value| == 0 || |value + locations| <= 1
    ensures forall a, b :: a != b && a in value + locations && b in value + locations ==> Siblings(f, a, b)
  {
    forall a, b | a != b && a in value + locations && b in value + locations ensures Siblings(f, a, b) {
      if |locations - value| == 0 {
        assert a !in locations - value && b !in locations - value;
        assert Usr(u, a) in f && Usr(u, b) in f;
      } else {
        SubsetSize({a, b}, value + locations);
      }
    }
  }

  ghost predicate OnlyUsrAdded(f: Facts, g: Facts) {
    f <= g && forall x :: x in g && x !in f ==> x.Usr?
  }

  lemma JoinHolds(symbols: SymbolMap, f: Facts, g: Facts, joined: set<Location>)
    requires SymbolsHold(symbols, f)
    requires OnlyUsrAdded(f, g)
    requires forall a, b :: Siblings(g, a, b) <==> Siblings(f, a, b) || (a != b && a in joined && b in joined)
    ensures SymbolsHold(JoinCursorsSpec(symbols, joined), g)
  {
  }

  lemma SiblingsUnchanged(symbols: SymbolMap, f: Facts, g: Facts)
    requires SymbolsHold(symbols, f)
    requires OnlyUsrAdded(f, g)
    requires forall a, b :: Siblings(g, a, b) <==> Siblings(f, a, b)
    ensures SymbolsHold(symbols, g)
  {
  }

  lemma WriteCursorsHolds(symbols: SymbolMap, current: SymbolMap, usr: UsrMap, f: Facts)
    requires Represents(current, usr, f)
    ensures Represents(WriteCursorsSpec(symbols, current), usr, f + SymbolFacts(symbols))
  {
    var r, g := WriteCursorsSpec(symbols, current), f + SymbolFacts(symbols);
    MergedSets(symbols, current);
    CursorsHold(symbols, current, r, f);
    AboutKeysAfter(f, symbols);
    UsrStillHolds(usr, f, SymbolFacts(symbols));
  }

  /** Merging one more description of a symbol. */
  lemma UnitedRecord(i: CursorInfo, j: CursorInfo, l: Location, f: Facts, g: Facts)
    requires IsRecordOf(i, l, f)
    requires forall k :: Described(l, k) in g <==> Described(l, k) in f || k == j
    ensures IsRecordOf(i.Unite(j).0, l, g)
  {
    var r := i.Unite(j).0;
    assert Described(l, j) in g;
    assert SameDescription(r, i) || SameDescription(r, j);
    assert SameExtent(r, i) || SameExtent(r, j);
  }

  lemma FirstRecord(j: CursorInfo, l: Location, g: Facts)
    requires forall k :: Described(l, k) in g <==> k == j
    ensures IsRecordOf(j, l, g)
  {
    assert Described(l, j) in g && SameDescription(j, j) && SameExtent(j, j);
  }

  lemma WriteCursorsRecords(symbols: SymbolMap, current: SymbolMap, f: Facts)
    requires RecordsHold(current, f)
    ensures RecordsHold(WriteCursorsSpec(symbols, current), f + RecordFacts(symbols))
  {
    var r, g := WriteCursorsSpec(symbols, current), f + RecordFacts(symbols);
    forall l | l in r ensures IsRecordOf(r[l], l, g) {
      if l !in symbols {
        SameRecord(current[l], r[l], l, f, g);
      } else if l in current {
        UnitedRecord(current[l], Prefixed(symbols[l]), l, f, g);
      } else {
        FirstRecord(Prefixed(symbols[l]), l, g);
      }
    }
  }

  /** Nothing but targets and references differs, and what is new is the default record. */
  ghost predicate SameScalars(m: SymbolMap, r: SymbolMap) {
    && m.Keys <= r.Keys
    && forall l :: l in r ==>
         var i := if l in m then m[l] else NO_CURSOR;
         SameDescription(i, r[l]) && SameExtent(i, r[l])
  }

  lemma SameScalarsRecords(m: SymbolMap, r: SymbolMap, f: Facts, g: Facts)
    requires RecordsHold(m, f) && SameScalars(m, r)
    requires forall l, j :: Described(l, j) in g <==> Described(l, j) in f
    ensures RecordsHold(r, g)
  {
    forall l | l in r ensures IsRecordOf(r[l], l, g) {
      if l in m {
        SameRecord(m[l], r[l], l, f, g);
      }
    }
  }

  lemma UsrStillHolds(usr: UsrMap, f: Facts, h: Facts)
    requires UsrHolds(usr, f)
    requires forall x :: x in h ==> !x.Usr?
    ensures UsrHolds(usr, f + h)
  {
    forall u, l ensures Usr(u, l) in f + h <==> Usr(u, l) in f {
    }
  }

  lemma MergedSets(symbols: SymbolMap, current: SymbolMap)
    ensures var r := WriteCursorsSpec(symbols, current);
      forall l :: l in r ==>
        && r[l].targets == TargetsIn(current, l) + TargetsIn(symbols, l)
        && r[l].references == ReferencesIn(current, l) + ReferencesIn(symbols, l)
  {
  }

  lemma CursorsHold(symbols: SymbolMap, current: SymbolMap, r: SymbolMap, f: Facts)
    requires SymbolsHold(current, f) && AboutKeys(f)
    requires r.Keys == current.Keys + symbols.Keys
    requires forall l :: l in r ==>
        && r[l].targets == TargetsIn(current, l) + TargetsIn(symbols, l)
        && r[l].references == ReferencesIn(current, l) + ReferencesIn(symbols, l)
    ensures SymbolsHold(r, f + SymbolFacts(symbols))
  {
    var g := f + SymbolFacts(symbols);
    forall l ensures l in r <==> Key(l) in g {
      TablesAfter(symbols, current, f, l, l);
    }
    forall a, b | a in r ensures b in r[a].targets <==> Target(a, b) in g || Siblings(g, a, b) {
      TablesAfter(symbols, current, f, a, b);
    }
    forall a, b | a in r ensures b in r[a].references <==> Reference(a, b) in g {
      TablesAfter(symbols, current, f, a, b);
    }
  }

  lemma TablesAfter(symbols: SymbolMap, current: SymbolMap, f: Facts, a: Location, b: Location)
    requires SymbolsHold(current, f) && AboutKeys(f)
    ensures var g := f + SymbolFacts(symbols);
      && (a in current || a in symbols <==> Key(a) in g)
      && (b in TargetsIn(current, a) + TargetsIn(symbols, a) <==> Target(a, b) in g || Siblings(g, a, b))
      && (b in ReferencesIn(current, a) + ReferencesIn(symbols, a) <==> Reference(a, b) in g)
  {
    SiblingsOnlyGrow(f, SymbolFacts(symbols), a, b);
    InSymbolFacts(symbols, a, b);
    TablesAt(current, f, a, b);
  }

  lemma TablesAt(current: SymbolMap, f: Facts, a: Location, b: Location)
    requires SymbolsHold(current, f) && AboutKeys(f)
    ensures b in TargetsIn(current, a) <==> Target(a, b) in f || Siblings(f, a, b)
    ensures b in ReferencesIn(current, a) <==> Reference(a, b) in f
  {
    if a !in current {
      assert Target(a, b) !in f && Reference(a, b) !in f;
      assert forall u :: Usr(u, a) !in f;
    }
  }

  lemma InSymbolFacts(m: SymbolMap, a: Location, b: Location)
    ensures Key(a) in SymbolFacts(m) <==> a in m
    ensures Target(a, b) in SymbolFacts(m) <==> b in TargetsIn(m, a)
    ensures Reference(a, b) in SymbolFacts(m) <==> b in ReferencesIn(m, a)
  {
  }

  lemma SiblingsOnlyGrow(f: Facts, h: Facts, a: Location, b: Location)
    requires forall x :: x in h ==> !x.Usr?
    ensures Siblings(f + h, a, b) <==> Siblings(f, a, b)
  {
    if Siblings(f, a, b) {
      var u :| Usr(u, a) in f && Usr(u, b) in f;
      assert Usr(u, a) in f + h && Usr(u, b) in f + h;
    }
    if Siblings(f + h, a, b) {
      var u :| Usr(u, a) in f + h && Usr(u, b) in f + h;
      assert Usr(u, a) in f && Usr(u, b) in f;
    }
  }

  lemma AboutKeysAfter(f: Facts, symbols: SymbolMap)
    requires AboutKeys(f)
    ensures AboutKeys(f + SymbolFacts(symbols))
  {
    var g := f + SymbolFacts(symbols);
    forall a, b | Target(a, b) in g || Reference(a, b) in g ensures Key(a) in g {
      if a in symbols { assert Key(a) in SymbolFacts(symbols); }
    }
  }

  /** The loop of writeReferences: a referring location becomes a key if it was none. */
  method WriteReferences(references: ReferenceMap, symbols: SymbolMap, ghost usr: UsrMap, ghost f: Facts)
    returns (r: SymbolMap)
    requires Represents(symbols, usr, f)
    ensures Represents(r, usr, f + ReferenceFacts(references)) && symbols.Keys <= r.Keys
    ensures forall l :: l in r ==>
      r[l] == (if l in symbols then symbols[l] else NO_CURSOR).(references := r[l].references)
  {
    r := symbols;
    var todo := references.Keys;
    ghost var g := f;
    assert ReferenceFacts(references - todo) == iset{};
    while todo != {}
      invariant todo <= references.Keys
      invariant g == f + ReferenceFacts(references - todo)
      invariant Represents(r, usr, g)
      invariant forall l :: l in r ==>
        r[l] == (if l in symbols then symbols[l] else NO_CURSOR).(references := r[l].references)
      invariant symbols.Keys <= r.Keys
    {
      var k :| k in todo;
      ReferenceFactsStep(f, references, todo, k);
      r := WriteReferrers(k, references[k], r, usr, g);
      todo := todo - {k};
      g := g + ReferrerFacts(k, references[k]);
    }
    assert references == references - todo;
  }

  ghost function ReferrerFacts(k: Location, refs: set<Location>): Facts {
    iset x: Fact | (x.Key? && x.l in refs) || (x.Reference? && x.b == k && x.a in refs)
  }

  lemma ReferenceFactsStep(f: Facts, references: ReferenceMap, todo: set<Location>, k: Location)
    requires k in todo && todo <= references.Keys
    ensures f + ReferenceFacts(references - todo) + ReferrerFacts(k, references[k]) ==
            f + ReferenceFacts(references - (todo - {k}))
  {
    var a, b := ReferenceFacts(references - todo), ReferenceFacts(references - (todo - {k}));
    forall x ensures x in b <==> x in a + ReferrerFacts(k, references[k]) {
      if x.Key? && x in b {
        var j :| j in references - (todo - {k}) && x.l in references[j];
        assert j != k ==> j in references - todo;
      }
      if x.Key? && x in a {
        var j :| j in references - todo && x.l in references[j];
        assert j in references - (todo - {k});
      }
      if x.Key? && x.l in references[k] {
        assert Reference(x.l, k) in b;
      }
    }
  }

  method WriteReferrers(k: Location, refs: set<Location>, symbols: SymbolMap, ghost usr: UsrMap, ghost f: Facts)
    returns (r: SymbolMap)
    requires Represents(symbols, usr, f)
    ensures Represents(r, usr, f + ReferrerFacts(k, refs))
    ensures r.Keys == symbols.Keys + refs
    ensures forall l :: l in r ==>
      r[l] == (if l in symbols then symbols[l] else NO_CURSOR).(references := r[l].references)
  {
    r := symbols;
    var todo := refs;
    while todo != {}
      invariant todo <= refs
      invariant r.Keys == symbols.Keys + (refs - todo)
      invariant forall l :: l in r ==>
        var c := if l in symbols then symbols[l] else NO_CURSOR;
        r[l] == if l in refs - todo then c.(references := c.references + {k}) else c
    {
      var l :| l in todo;
      todo := todo - {l};
      var ci := if l in r then r[l] else NO_CURSOR;
      r := r[l := ci.(references := ci.references + {k})];
    }
    ReferrersHold(k, refs, symbols, r, usr, f);
  }

  lemma ReferrersHold(k: Location, refs: set<Location>, symbols: SymbolMap, r: SymbolMap, usr: UsrMap, f: Facts)
    requires Represents(symbols, usr, f)
    requires r.Keys == symbols.Keys + refs
    requires forall l :: l in r ==>
      var c := if l in symbols then symbols[l] else NO_CURSOR;
      r[l] == if l in refs then c.(references := c.references + {k}) else c
    ensures Represents(r, usr, f + ReferrerFacts(k, refs))
  {
    var g := f + ReferrerFacts(k, refs);
    assert forall a, b :: Siblings(f, a, b) <==> Siblings(g, a, b);
    forall a, b | a in r
      ensures b in r[a].targets <==> Target(a, b) in g || Siblings(g, a, b)
      ensures b in r[a].references <==> Reference(a, b) in g
    {
      if Siblings(f, a, b) {
        var u :| Usr(u, a) in f && Usr(u, b) in f;
      }
      if a !in symbols {
        assert Target(a, b) !in f && Reference(a, b) !in f;
      }
    }
  }

  // --- Joining maps of sets: symbol names and dependencies ---

  function UniteSpec<K, V>(groups: map<K, set<V>>, current: map<K, set<V>>): map<K, set<V>> {
    map u | u in current.Keys + groups.Keys :: At(current, u) + At(groups, u)
  }

  /** The loop of writeSymbolNames and of addDependencies: sets only ever grow. */
  method UniteGroups<K, V>(groups: map<K, set<V>>, current: map<K, set<V>>) returns (r: map<K, set<V>>)
    ensures r == UniteSpec(groups, current)
  {
    r := current;
    var todo := groups.Keys;
    while todo != {}
      invariant todo <= groups.Keys
      invariant r.Keys == current.Keys + (groups.Keys - todo)
      invariant forall u :: u in r && (u in todo || u !in groups) ==> u in current && r[u] == current[u]
      invariant forall u :: u in groups && u !in todo ==> r[u] == At(current, u) + At(groups, u)
    {
      var u :| u in todo;
      var values := At(r, u);
      assert values == At(current, u);
      todo := todo - {u};
      if values == {} {
        r := r[u := groups[u]];
      } else {
        r := r[u := values + groups[u]];
      }
    }
    forall u | u in r ensures r[u] == At(current, u) + At(groups, u) {
    }
  }

  lemma UniteDependenciesHold(deps: DependencyMap, current: DependencyMap, f: Facts)
    requires DependenciesHold(current, f)
    ensures DependenciesHold(UniteSpec(deps, current), f + DependencyFacts(deps))
  {
  }

  lemma UniteNamesHold(names: UsrMap, current: UsrMap, f: Facts)
    requires NamesHold(current, f)
    ensures NamesHold(UniteSpec(names, current), f + NameFacts(names))
  {
  }
}
