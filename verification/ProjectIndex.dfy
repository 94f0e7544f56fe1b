/** The index a project keeps: write() merges the pending units after purging the dirty
    files, and a modified file sends its sources back to the indexer
    (src/Project.cpp, src/IndexerJob.cpp). */
module ProjectIndex {
  import opened Locations
  import opened Cursors
  import opened SymbolIndex

  // --- Include trees ---

  /** One call of clang's inclusion visitor: a file and the files that include it, the
      innermost first and the main file last; the main file itself has an empty stack.
      Id 0 stands for a location without a file. */
  datatype Inclusion = Inclusion(file: FileId, stack: seq<FileId>)

  predicate InclusionOf(i: Inclusion, main: FileId) {
    if i.stack == [] then i.file == main else i.stack[|i.stack| - 1] == main
  }

  predicate Includes(i: Inclusion, f: FileId) {
    if i.stack == [] then f == i.file else f in i.stack && f != 0
  }

  /** inclusionVisitor over all inclusions of a unit: each file depends on the unit's main
      file, and on the rest of the stack it was reached through. */
  method VisitInclusions(inclusions: seq<Inclusion>, main: FileId) returns (deps: DependencyMap)
    requires main != 0
    requires forall i :: i in inclusions ==> InclusionOf(i, main)
    ensures deps.Keys == set i | i in inclusions :: i.file
    ensures forall h :: h in deps ==> main in deps[h]
    ensures forall h, f :: h in deps ==>
      (f in deps[h] <==> exists i :: i in inclusions && i.file == h && Includes(i, f))
    ensures forall i, f :: i in inclusions && f in i.stack && f != 0 ==> f in deps[i.file]
  {
    deps := map[];
    for n := 0 to |inclusions|
      invariant deps.Keys == set i | i in inclusions[..n] :: i.file
      invariant forall h, f :: h in deps ==>
        (f in deps[h] <==> exists i :: i in inclusions[..n] && i.file == h && Includes(i, f))
    {
      var i := inclusions[n];
      assert inclusions[..n + 1] == inclusions[..n] + [i];
      var includers := Includers(i);
      deps := deps[i.file := At(deps, i.file) + includers];
    }
    assert inclusions[..|inclusions|] == inclusions;
    forall h | h in deps ensures main in deps[h] {
      var i :| i in inclusions && i.file == h;
      assert InclusionOf(i, main);
      assert Includes(i, main);
    }
  }

  /** Every file of the stack that is one, or the main file itself. */
  method Includers(i: Inclusion) returns (fs: set<FileId>)
    ensures forall f :: f in fs <==> Includes(i, f)
  {
    fs := {};
    if i.stack == [] {
      fs := {i.file};
    } else {
      for n := 0 to |i.stack|
        invariant forall f :: f in fs <==> f in i.stack[..n] && f != 0
      {
        if i.stack[n] != 0 {
          fs := fs + {i.stack[n]};
        }
        assert i.stack[..n + 1] == i.stack[..n] + [i.stack[n]];
      }
      assert i.stack[..|i.stack|] == i.stack;
    }
  }

  // --- Rounds of purging and merging ---

  /** What one call of write() did: the files it purged, and what the units it merged say. */
  datatype Round = Round(dirty: set<FileId>, added: Facts)

  ghost function AllUnitFacts(data: map<FileId, IndexData>): Facts {
    iset x: Fact | SomeUnitSays(data, x)
  }

  ghost predicate SomeUnitSays(data: map<FileId, IndexData>, x: Fact) {
    exists d :: d in data && x in UnitFacts(data[d])
  }

  /** What the first n rounds establish. */
  ghost function FactsUpTo(rounds: seq<Round>, n: nat): Facts
    requires n <= |rounds|
  {
    if n == 0 then iset{}
    else Without(FactsUpTo(rounds, n - 1), rounds[n - 1].dirty) + rounds[n - 1].added
  }

  ghost function FactsAfter(rounds: seq<Round>): Facts {
    FactsUpTo(rounds, |rounds|)
  }

  /** Some unit merged in the first n rounds declared the fact, and none of them purged a file
      it is about later. */
  ghost predicate Declared(rounds: seq<Round>, n: nat, x: Fact)
    requires n <= |rounds|
  {
    exists i :: 0 <= i < n && x in rounds[i].added && UntouchedSince(rounds, i, n, x)
  }

  ghost predicate UntouchedSince(rounds: seq<Round>, i: nat, n: nat, x: Fact)
    requires n <= |rounds|
  {
    forall j :: i < j < n ==> !x.Touches(rounds[j].dirty)
  }

  /** After any rounds of purging and merging exactly that holds which was declared and not
      purged since; the order in which units were merged within a round plays no part. */
  lemma {:induction false} FactsIffDeclared(rounds: seq<Round>, n: nat, x: Fact)
    requires n <= |rounds|
    ensures x in FactsUpTo(rounds, n) <==> Declared(rounds, n, x)
  {
    if n > 0 {
      FactsIffDeclared(rounds, n - 1, x);
      var last := rounds[n - 1];
      if x in last.added {
        assert UntouchedSince(rounds, n - 1, n, x);
      } else {
        assert forall i :: 0 <= i < n - 1 ==>
          (UntouchedSince(rounds, i, n, x) <==> UntouchedSince(rounds, i, n - 1, x) && !x.Touches(last.dirty));
      }
    }
  }

  lemma FactsAfterRound(rounds: seq<Round>, r: Round)
    ensures FactsAfter(rounds + [r]) == Without(FactsAfter(rounds), r.dirty) + r.added
  {
    FactsOfPrefix(rounds, r, |rounds|);
  }

  lemma {:induction false} FactsOfPrefix(rounds: seq<Round>, r: Round, n: nat)
    requires n <= |rounds|
    ensures FactsUpTo(rounds + [r], n) == FactsUpTo(rounds, n)
  {
    if n > 0 {
      FactsOfPrefix(rounds, r, n - 1);
    }
  }

  // --- Merging and purging the tables ---

  datatype Tables = Tables(symbols: SymbolMap, usr: UsrMap, symbolNames: UsrMap, dependencies: DependencyMap)

  ghost function TableFacts(t: Tables): Facts {
    SymbolFacts(t.symbols) + UsrFacts(t.usr) + NameFacts(t.symbolNames) + DependencyFacts(t.dependencies)
  }

  /** The facts that entries of the tables stand for; descriptions go into records. */
  ghost function Listed(f: Facts): Facts {
    iset x | x in f && !x.Described?
  }

  /** Siblings under a USR target each other. */
  ghost function Links(f: Facts): Facts {
    iset x: Fact | x.Target? && Siblings(f, x.a, x.b)
  }

  /** Whatever is filed under a USR is a symbol. */
  ghost function UsrKeys(f: Facts): Facts {
    iset x: Fact | x.Key? && exists u :: Usr(u, x.l) in f
  }

  /** The tables say exactly what the facts say, and link siblings, and every record is made of
      descriptions of its symbol. */
  ghost predicate Say(t: Tables, f: Facts) {
    TableFacts(t) == Listed(f) + Links(f) && UsrKeys(f) <= f && RecordsHold(t.symbols, f)
  }

  ghost predicate Holds(t: Tables, f: Facts) {
    && Represents(t.symbols, t.usr, f)
    && NamesHold(t.symbolNames, f)
    && DependenciesHold(t.dependencies, f)
    && RecordsHold(t.symbols, f)
  }

  lemma SaysAt(t: Tables, f: Facts, a: Location, b: Location, u: string, h: FileId, s: FileId)
    requires Say(t, f)
    ensures a in t.symbols <==> Key(a) in f
    ensures b in TargetsIn(t.symbols, a) <==> Target(a, b) in f || Siblings(f, a, b)
    ensures b in ReferencesIn(t.symbols, a) <==> Reference(a, b) in f
    ensures a in At(t.usr, u) <==> Usr(u, a) in f
    ensures a in At(t.symbolNames, u) <==> Name(u, a) in f
    ensures s in At(t.dependencies, h) <==> IncludedBy(h, s) in f
    ensures Usr(u, a) in f ==> Key(a) in f
  {
    assert Key(a) in TableFacts(t) <==> Key(a) in f;
    assert Target(a, b) in TableFacts(t) <==> Target(a, b) in Listed(f) + Links(f);
    assert Reference(a, b) in TableFacts(t) <==> Reference(a, b) in f;
    assert Usr(u, a) in TableFacts(t) <==> Usr(u, a) in f;
    assert Name(u, a) in TableFacts(t) <==> Name(u, a) in f;
    assert IncludedBy(h, s) in TableFacts(t) <==> IncludedBy(h, s) in f;
    if Usr(u, a) in f {
      assert Key(a) in UsrKeys(f);
    }
  }

  lemma SayMeansHolds(t: Tables, f: Facts)
    requires Say(t, f)
    ensures Holds(t, f)
  {
    SaySymbols(t, f);
    SayGroups(t, f);
    SayAboutKeys(t, f);
  }

  lemma SaySymbols(t: Tables, f: Facts)
    requires Say(t, f)
    ensures SymbolsHold(t.symbols, f)
  {
    forall a ensures a in t.symbols <==> Key(a) in f {
      SaysAt(t, f, a, a, "", 0, 0);
    }
    forall a, b | a in t.symbols
      ensures b in t.symbols[a].targets <==> Target(a, b) in f || Siblings(f, a, b)
      ensures b in t.symbols[a].references <==> Reference(a, b) in f
    {
      SaysAt(t, f, a, b, "", 0, 0);
    }
  }

  lemma SayGroups(t: Tables, f: Facts)
    requires Say(t, f)
    ensures UsrHolds(t.usr, f) && NamesHold(t.symbolNames, f) && DependenciesHold(t.dependencies, f)
  {
    forall u, a ensures a in At(t.usr, u) <==> Usr(u, a) in f {
      SaysAt(t, f, a, a, u, 0, 0);
    }
    forall u, a ensures a in At(t.symbolNames, u) <==> Name(u, a) in f {
      SaysAt(t, f, a, a, u, 0, 0);
    }
    forall h, s ensures s in At(t.dependencies, h) <==> IncludedBy(h, s) in f {
      SaysAt(t, f, Location(0, 0), Location(0, 0), "", h, s);
    }
  }

  lemma SayAboutKeys(t: Tables, f: Facts)
    requires Say(t, f)
    ensures AboutKeys(f)
  {
    forall a, b | Target(a, b) in f || Reference(a, b) in f ensures Key(a) in f {
      SaysAt(t, f, a, b, "", 0, 0);
    }
    forall u, a | Usr(u, a) in f ensures Key(a) in f {
      SaysAt(t, f, a, a, u, 0, 0);
    }
  }

  lemma HoldsMeansSay(t: Tables, f: Facts)
    requires Holds(t, f)
    ensures Say(t, f)
  {
    forall x ensures x in TableFacts(t) <==> x in Listed(f) + Links(f) {
      if x.Target? || x.Reference? {
        TablesAt(t.symbols, f, x.a, x.b);
      }
    }
  }

  /** The body of the merge loop of write(). */
  method MergeUnit(data: IndexData, t: Tables, ghost f: Facts) returns (r: Tables)
    requires Say(t, f) && data.UsrsAreSymbols()
    ensures Say(r, f + UnitFacts(data))
  {
    SayMeansHolds(t, f);
    var dependencies := UniteGroups(data.dependencies, t.dependencies);
    var symbols := WriteCursors(data.symbols, t.symbols);
    WriteCursorsHolds(data.symbols, t.symbols, t.usr, f);
    ghost var f1 := f + SymbolFacts(data.symbols);
    UsrsAreKeys(data, f);
    var usr;
    usr, symbols := WriteUsr(data.usrMap, t.usr, symbols, f1);
    ghost var f2 := f1 + UsrFacts(data.usrMap);
    symbols := WriteReferences(data.references, symbols, usr, f2);
    assert SameScalars(WriteCursorsSpec(data.symbols, t.symbols), symbols);
    var symbolNames := UniteGroups(data.symbolNames, t.symbolNames);
    r := Tables(symbols, usr, symbolNames, dependencies);
    Merged(data, t, r, f);
  }

  lemma UsrsAreKeys(data: IndexData, f: Facts)
    requires data.UsrsAreSymbols()
    ensures forall u, l :: u in data.usrMap && l in data.usrMap[u] ==> Key(l) in f + SymbolFacts(data.symbols)
  {
    forall u, l | u in data.usrMap && l in data.usrMap[u] ensures Key(l) in SymbolFacts(data.symbols) {
      InSymbolFacts(data.symbols, l, l);
    }
  }

  /** Only the loop over the symbols touches more than targets and references. */
  lemma MergedRecords(data: IndexData, symbols: SymbolMap, r: SymbolMap, f: Facts)
    requires RecordsHold(symbols, f) && SameScalars(WriteCursorsSpec(data.symbols, symbols), r)
    ensures RecordsHold(r, f + UnitFacts(data))
  {
    WriteCursorsRecords(data.symbols, symbols, f);
    forall l, j ensures Described(l, j) in f + UnitFacts(data) <==> Described(l, j) in f + RecordFacts(data.symbols) {
      assert Described(l, j) !in SymbolFacts(data.symbols) && Described(l, j) !in ReferenceFacts(data.references);
    }
    SameScalarsRecords(WriteCursorsSpec(data.symbols, symbols), r, f + RecordFacts(data.symbols), f + UnitFacts(data));
  }

  lemma MergedNames(data: IndexData, names: UsrMap, f: Facts)
    requires NamesHold(names, f)
    ensures NamesHold(UniteSpec(data.symbolNames, names), f + UnitFacts(data))
  {
    UniteNamesHold(data.symbolNames, names, f);
    NamesUntouched(UniteSpec(data.symbolNames, names), f + NameFacts(data.symbolNames), f + UnitFacts(data));
  }

  lemma MergedDependencies(data: IndexData, deps: DependencyMap, f: Facts)
    requires DependenciesHold(deps, f)
    ensures DependenciesHold(UniteSpec(data.dependencies, deps), f + UnitFacts(data))
  {
    UniteDependenciesHold(data.dependencies, deps, f);
    DependenciesUntouched(UniteSpec(data.dependencies, deps), f + DependencyFacts(data.dependencies),
                          f + UnitFacts(data));
  }

  lemma MergedSymbols(data: IndexData, symbols: SymbolMap, usr: UsrMap, f: Facts)
    requires Represents(symbols, usr,
               f + SymbolFacts(data.symbols) + UsrFacts(data.usrMap) + ReferenceFacts(data.references))
    ensures Represents(symbols, usr, f + UnitFacts(data))
  {
    var g := f + SymbolFacts(data.symbols) + UsrFacts(data.usrMap) + ReferenceFacts(data.references);
    RestUntouched(symbols, usr, g,
      NameFacts(data.symbolNames) + DependencyFacts(data.dependencies) + RecordFacts(data.symbols));
    UnitFactsSplit(data, f);
  }

  lemma Merged(data: IndexData, t: Tables, r: Tables, f: Facts)
    requires RecordsHold(t.symbols, f) && SameScalars(WriteCursorsSpec(data.symbols, t.symbols), r.symbols)
    requires NamesHold(t.symbolNames, f) && r.symbolNames == UniteSpec(data.symbolNames, t.symbolNames)
    requires DependenciesHold(t.dependencies, f) && r.dependencies == UniteSpec(data.dependencies, t.dependencies)
    requires Represents(r.symbols, r.usr,
               f + SymbolFacts(data.symbols) + UsrFacts(data.usrMap) + ReferenceFacts(data.references))
    ensures Say(r, f + UnitFacts(data))
  {
    MergedSymbols(data, r.symbols, r.usr, f);
    MergedNames(data, t.symbolNames, f);
    MergedDependencies(data, t.dependencies, f);
    MergedRecords(data, t.symbols, r.symbols, f);
    HoldsMeansSay(r, f + UnitFacts(data));
  }

  lemma UnitFactsSplit(data: IndexData, f: Facts)
    ensures f + UnitFacts(data) ==
            f + SymbolFacts(data.symbols) + UsrFacts(data.usrMap) + ReferenceFacts(data.references)
            + (NameFacts(data.symbolNames) + DependencyFacts(data.dependencies) + RecordFacts(data.symbols))
  {
  }

  lemma NamesUntouched(names: UsrMap, f: Facts, g: Facts)
    requires NamesHold(names, f)
    requires forall x: Fact :: x.Name? ==> (x in f <==> x in g)
    ensures NamesHold(names, g)
  {
    forall n, l ensures Name(n, l) in f <==> Name(n, l) in g {
    }
  }

  lemma DependenciesUntouched(deps: DependencyMap, f: Facts, g: Facts)
    requires DependenciesHold(deps, f)
    requires forall x: Fact :: x.IncludedBy? ==> (x in f <==> x in g)
    ensures DependenciesHold(deps, g)
  {
    forall h, s ensures IncludedBy(h, s) in f <==> IncludedBy(h, s) in g {
    }
  }

  lemma RestUntouched(symbols: SymbolMap, usr: UsrMap, f: Facts, h: Facts)
    requires Represents(symbols, usr, f)
    requires forall x :: x in h ==> x.Name? || x.IncludedBy? || x.Described?
    ensures Represents(symbols, usr, f + h)
  {
    forall a, b ensures Siblings(f + h, a, b) <==> Siblings(f, a, b) {
      SiblingsOnlyGrow(f, h, a, b);
    }
    UsrStillHolds(usr, f, h);
  }

  /** Purging the three tables of the pending dirty files. */
  method Purge(dirty: set<FileId>, t: Tables, ghost f: Facts) returns (r: Tables)
    requires Say(t, f)
    ensures Say(r, Without(f, dirty))
  {
    SayMeansHolds(t, f);
    DirtyRepresents(t.symbols, t.usr, f, dirty);
    DirtyNamesHold(t.symbolNames, f, dirty);
    DirtyRecordsHold(t.symbols, f, dirty);
    DependenciesUntouched(t.dependencies, f, Without(f, dirty));
    var symbols := DirtySymbols(t.symbols, dirty);
    var symbolNames := DirtyGroups(t.symbolNames, dirty);
    var usr := DirtyGroups(t.usr, dirty);
    r := Tables(symbols, usr, symbolNames, t.dependencies);
    HoldsMeansSay(r, Without(f, dirty));
  }

  /** The merge loop of write(). */
  method MergeAll(data: map<FileId, IndexData>, t: Tables, ghost f: Facts) returns (r: Tables)
    requires Say(t, f) && AllIndexed(data)
    ensures Say(r, f + AllUnitFacts(data))
  {
    r := t;
    var todo := data.Keys;
    NothingMerged(data, f);
    while todo != {}
      invariant todo <= data.Keys
      invariant Say(r, f + AllUnitFacts(data - todo))
    {
      var d :| d in todo;
      OneMoreMerged(data, todo, d, f);
      r := MergeUnit(data[d], r, f + AllUnitFacts(data - todo));
      todo := todo - {d};
    }
    assert data - todo == data;
  }

  lemma NothingMerged(data: map<FileId, IndexData>, f: Facts)
    ensures f + AllUnitFacts(data - data.Keys) == f
  {
  }

  lemma OneMoreMerged(data: map<FileId, IndexData>, todo: set<FileId>, d: FileId, f: Facts)
    requires d in todo && todo <= data.Keys
    ensures f + AllUnitFacts(data - todo) + UnitFacts(data[d]) == f + AllUnitFacts(data - (todo - {d}))
  {
    AllUnitFactsStep(data, todo, d);
  }

  lemma AllUnitFactsStep(data: map<FileId, IndexData>, todo: set<FileId>, d: FileId)
    requires d in todo && todo <= data.Keys
    ensures AllUnitFacts(data - (todo - {d})) == AllUnitFacts(data - todo) + UnitFacts(data[d])
  {
    forall x ensures x in AllUnitFacts(data - (todo - {d})) <==> x in AllUnitFacts(data - todo) + UnitFacts(data[d]) {
      if x in AllUnitFacts(data - todo) {
        var e :| e in data - todo && x in UnitFacts(data[e]);
        assert e in data - (todo - {d});
      }
      if x in UnitFacts(data[d]) {
        assert d in data - (todo - {d});
      }
      if x in AllUnitFacts(data - (todo - {d})) {
        var e :| e in data - (todo - {d}) && x in UnitFacts(data[e]);
        assert e != d ==> e in data - todo;
      }
    }
  }

  /** write(), for the tables. */
  method PurgeAndMerge(dirty: set<FileId>, data: map<FileId, IndexData>, t: Tables, ghost rounds: seq<Round>)
    returns (r: Tables)
    requires Say(t, FactsAfter(rounds)) && AllIndexed(data)
    ensures Say(r, FactsAfter(rounds + [Round(dirty, AllUnitFacts(data))]))
  {
    ghost var f := FactsAfter(rounds);
    r := t;
    if dirty != {} {
      r := Purge(dirty, t, f);
    } else {
      assert Without(f, {}) == f;
    }
    r := MergeAll(data, r, Without(f, dirty));
    FactsAfterRound(rounds, Round(dirty, AllUnitFacts(data)));
  }

  ghost function DeclaredFacts(rounds: seq<Round>): Facts {
    iset x: Fact | Declared(rounds, |rounds|, x)
  }

  lemma FactsAreDeclared(rounds: seq<Round>)
    ensures FactsAfter(rounds) == DeclaredFacts(rounds)
  {
    forall x ensures x in FactsAfter(rounds) <==> x in DeclaredFacts(rounds) {
      FactsIffDeclared(rounds, |rounds|, x);
    }
  }

  /** Exactly what was declared is in the tables, at every location, USR, name and file, and
      targets besides between locations that share a USR; and each record has its length, kind,
      name and extent from units that described its symbol since its file was last purged: this
      is an index a rebuild from the declarations of the units would give. */
  ghost predicate IsIndexOf(t: Tables, rounds: seq<Round>) {
    && (forall a :: a in t.symbols <==> Declared(rounds, |rounds|, Key(a)))
    && (forall a, b :: b in TargetsIn(t.symbols, a) <==>
          Declared(rounds, |rounds|, Target(a, b)) || ShareUsr(rounds, a, b))
    && (forall a, b :: b in ReferencesIn(t.symbols, a) <==> Declared(rounds, |rounds|, Reference(a, b)))
    && (forall u, a :: a in At(t.usr, u) <==> Declared(rounds, |rounds|, Usr(u, a)))
    && (forall n, a :: a in At(t.symbolNames, n) <==> Declared(rounds, |rounds|, Name(n, a)))
    && (forall h, f :: f in At(t.dependencies, h) <==> Declared(rounds, |rounds|, IncludedBy(h, f)))
    && (forall a :: a in t.symbols ==> IsRecordOf(t.symbols[a], a, DeclaredFacts(rounds)))
  }

  ghost predicate ShareUsr(rounds: seq<Round>, a: Location, b: Location) {
    a != b && exists w :: Declared(rounds, |rounds|, Usr(w, a)) && Declared(rounds, |rounds|, Usr(w, b))
  }

  lemma SharedIffSiblings(rounds: seq<Round>, a: Location, b: Location)
    ensures Siblings(FactsAfter(rounds), a, b) <==> ShareUsr(rounds, a, b)
  {
    forall x ensures x in FactsAfter(rounds) <==> Declared(rounds, |rounds|, x) {
      FactsIffDeclared(rounds, |rounds|, x);
    }
  }

  lemma EntryIsDeclared(t: Tables, rounds: seq<Round>, a: Location, b: Location, u: string, h: FileId, f: FileId)
    requires Say(t, FactsAfter(rounds))
    ensures a in t.symbols <==> Declared(rounds, |rounds|, Key(a))
    ensures b in TargetsIn(t.symbols, a) <==> Declared(rounds, |rounds|, Target(a, b)) || ShareUsr(rounds, a, b)
    ensures b in ReferencesIn(t.symbols, a) <==> Declared(rounds, |rounds|, Reference(a, b))
    ensures a in At(t.usr, u) <==> Declared(rounds, |rounds|, Usr(u, a))
    ensures a in At(t.symbolNames, u) <==> Declared(rounds, |rounds|, Name(u, a))
    ensures f in At(t.dependencies, h) <==> Declared(rounds, |rounds|, IncludedBy(h, f))
  {
    forall x ensures x in FactsAfter(rounds) <==> Declared(rounds, |rounds|, x) {
      FactsIffDeclared(rounds, |rounds|, x);
    }
    SaysAt(t, FactsAfter(rounds), a, b, u, h, f);
    SharedIffSiblings(rounds, a, b);
  }

  /** Tables that say the facts of the rounds are the index of what was declared, and every two
      locations under one USR are symbols that target each other. */
  lemma IndexIsDeclared(t: Tables, rounds: seq<Round>)
    requires Say(t, FactsAfter(rounds))
    ensures IsIndexOf(t, rounds) && Linked(t.symbols, t.usr)
  {
    forall a ensures a in t.symbols <==> Declared(rounds, |rounds|, Key(a)) {
      EntryIsDeclared(t, rounds, a, a, "", 0, 0);
    }
    forall a, b
      ensures b in TargetsIn(t.symbols, a) <==> Declared(rounds, |rounds|, Target(a, b)) || ShareUsr(rounds, a, b)
      ensures b in ReferencesIn(t.symbols, a) <==> Declared(rounds, |rounds|, Reference(a, b))
    {
      EntryIsDeclared(t, rounds, a, b, "", 0, 0);
    }
    forall u, a
      ensures a in At(t.usr, u) <==> Declared(rounds, |rounds|, Usr(u, a))
      ensures a in At(t.symbolNames, u) <==> Declared(rounds, |rounds|, Name(u, a))
    {
      EntryIsDeclared(t, rounds, a, a, u, 0, 0);
    }
    forall h, f ensures f in At(t.dependencies, h) <==> Declared(rounds, |rounds|, IncludedBy(h, f)) {
      EntryIsDeclared(t, rounds, Location(0, 0), Location(0, 0), "", h, f);
    }
    FactsAreDeclared(rounds);
    SayMeansHolds(t, FactsAfter(rounds));
    RepresentsLinked(t.symbols, t.usr, FactsAfter(rounds));
  }

  // --- The project ---

  /** The unit is that of source d: its USRs are filed under its symbols, and every file of
      its include tree is recorded as included by d (see VisitInclusions). */
  ghost predicate IndexedAs(data: IndexData, d: FileId) {
    data.UsrsAreSymbols() && forall h :: h in data.dependencies ==> d in data.dependencies[h]
  }

  ghost predicate AllIndexed(data: map<FileId, IndexData>) {
    forall d :: d in data ==> IndexedAs(data[d], d)
  }

  const EMPTY := Tables(map[], map[], map[], map[])

  lemma EmptySaysNothing()
    ensures Say(EMPTY, FactsAfter([]))
  {
  }

  /** What one write() has to do: the files to purge, and the units to merge. */
  datatype Batch = Batch(dirty: set<FileId>, data: map<FileId, IndexData>)

  ghost function RoundOf(b: Batch): Round {
    Round(b.dirty, AllUnitFacts(b.data))
  }

  /** The rounds of the first n of them. */
  ghost function RoundsOf(batches: seq<Batch>, n: nat): (rounds: seq<Round>)
    requires n <= |batches|
    ensures |rounds| == n && forall i :: 0 <= i < n ==> rounds[i] == RoundOf(batches[i])
  {
    seq(n, i requires 0 <= i < n => RoundOf(batches[i]))
  }

  lemma RoundsNext(batches: seq<Batch>, n: nat)
    requires n < |batches|
    ensures RoundsOf(batches, n + 1) == RoundsOf(batches, n) + [Round(batches[n].dirty, AllUnitFacts(batches[n].data))]
  {
  }

  /** Any number of writes, from an empty index on: whatever was purged and merged, and in
      whatever order the units of a write came, the index is that of what was declared. */
  method WriteAll(batches: seq<Batch>) returns (t: Tables)
    requires forall b :: b in batches ==> AllIndexed(b.data)
    ensures IsIndexOf(t, RoundsOf(batches, |batches|)) && Linked(t.symbols, t.usr)
  {
    t := EMPTY;
    EmptySaysNothing();
    for n := 0 to |batches|
      invariant Say(t, FactsAfter(RoundsOf(batches, n)))
    {
      assert batches[n] in batches;
      RoundsNext(batches, n);
      t := PurgeAndMerge(batches[n].dirty, batches[n].data, t, RoundsOf(batches, n));
    }
    IndexIsDeclared(t, RoundsOf(batches, |batches|));
  }

  /** In some round a unit was merged that has source s include file h. */
  ghost predicate Included(rounds: seq<Round>, s: FileId, h: FileId) {
    exists i :: 0 <= i < |rounds| && IncludedBy(h, s) in rounds[i].added
  }

  /** A unit has its source include every file of its include tree. */
  lemma TreeIsIncluded(data: map<FileId, IndexData>, s: FileId, h: FileId)
    requires AllIndexed(data) && s in data && h in data[s].dependencies
    ensures IncludedBy(h, s) in AllUnitFacts(data)
  {
    assert IndexedAs(data[s], s);
    assert IncludedBy(h, s) in UnitFacts(data[s]);
  }

  /** The modified files, and those that some unit merged has include one of them. */
  ghost predicate IsClosure(rounds: seq<Round>, modified: set<FileId>, dirty: set<FileId>) {
    forall f :: f in dirty <==> f in modified || exists m :: m in modified && Included(rounds, f, m)
  }

  // --- What can happen to a project ---

  /** A project but for its tables. */
  datatype Trace = Trace(rounds: seq<Round>, sources: set<FileId>, modified: set<FileId>,
                         dirty: set<FileId>, pending: map<FileId, IndexData>)

  const NEW := Trace([], {}, {}, {}, map[])

  datatype Event =
    | FileModified(file: FileId)
    | Timeout
    | Indexed(s: FileId)
    | JobFinished(s: FileId, data: IndexData)
    | AllFinished

  /** onFilesModifiedTimeout, with these files found to be dirty. */
  ghost function TimedOut(a: Trace, dirty: set<FileId>): Trace {
    var all := a.dirty + dirty;
    if dirty * a.sources == {} && all != {}
    then a.(rounds := a.rounds + [Round(all, iset{})], modified := {}, dirty := {})
    else a.(modified := {}, dirty := all)
  }

  /** What each event does: only the last two kinds add rounds, and only AllFinished adds facts. */
  ghost predicate Steps(a: Trace, e: Event, b: Trace) {
    match e
    case FileModified(file) => b == a.(modified := a.modified + if file == 0 then {} else {file})
    case Indexed(s) => b == a.(sources := a.sources + {s}, pending := a.pending - {s})
    case JobFinished(s, data) => b == a.(sources := a.sources + {s}, pending := a.pending[s := data])
    case Timeout => exists dirty :: IsClosure(a.rounds, a.modified, dirty) && b == TimedOut(a, dirty)
    case AllFinished =>
      b == a.(rounds := a.rounds + [Round(a.dirty, AllUnitFacts(a.pending))], dirty := {}, pending := map[])
  }

  class Project {
    /** mSymbols, mUsr, mSymbolNames and mDependencies. */
    var tables: Tables
    var sources: set<FileId>
    var modifiedFiles: set<FileId>
    var pendingDirtyFiles: set<FileId>
    var pendingData: map<FileId, IndexData>
    /** Every purge and merge so far. */
    ghost var rounds: seq<Round>

    ghost predicate Valid()
      reads this
    {
      Say(tables, FactsAfter(rounds)) && AllIndexed(pendingData)
    }

    constructor ()
      ensures Valid() && tables == EMPTY && Now() == NEW
    {
      tables := EMPTY;
      sources, modifiedFiles, pendingDirtyFiles, pendingData := {}, {}, {}, map[];
      rounds := [];
      EmptySaysNothing();
    }

    ghost function Now(): Trace
      reads this
    {
      Trace(rounds, sources, modifiedFiles, pendingDirtyFiles, pendingData)
    }

    /** onFileModified(); a file without an id is of no interest. */
    method OnFileModified(file: FileId)
      requires Valid()
      modifies this`modifiedFiles
      ensures Valid() && modifiedFiles == old(modifiedFiles) + if file == 0 then {} else {file}
    {
      if file != 0 && file !in modifiedFiles {
        modifiedFiles := modifiedFiles + {file};
      }
    }

    /** index(), where the file has no job: its source is known from now on, and a result that
        waits is not written. */
    method Index(s: FileId)
      requires Valid()
      modifies this`sources, this`pendingData
      ensures Valid() && sources == old(sources) + {s} && pendingData == old(pendingData) - {s}
    {
      sources := sources + {s};
      pendingData := pendingData - {s};
    }

    /** onJobFinished(), for a job that was not aborted. */
    method OnJobFinished(s: FileId, data: IndexData)
      requires Valid() && IndexedAs(data, s)
      modifies this`sources, this`pendingData
      ensures Valid() && sources == old(sources) + {s} && pendingData == old(pendingData)[s := data]
    {
      pendingData := pendingData[s := data];
      sources := sources + {s};
    }

    /** Project::write. */
    method Write()
      requires Valid()
      modifies this`tables, this`rounds, this`pendingDirtyFiles, this`pendingData
      ensures Valid()
      ensures rounds == old(rounds) + [Round(old(pendingDirtyFiles), AllUnitFacts(old(pendingData)))]
      ensures pendingDirtyFiles == {} && pendingData == map[]
      // what was merged with a file in its include tree is recorded as including it
      ensures forall s, h :: s in old(pendingData) && h in old(pendingData)[s].dependencies ==> Included(rounds, s, h)
    {
      forall s, h | s in pendingData && h in pendingData[s].dependencies
        ensures IncludedBy(h, s) in AllUnitFacts(pendingData)
      {
        TreeIsIncluded(pendingData, s, h);
      }
      tables := PurgeAndMerge(pendingDirtyFiles, pendingData, tables, rounds);
      rounds := rounds + [Round(pendingDirtyFiles, AllUnitFacts(pendingData))];
      pendingDirtyFiles, pendingData := {}, map[];
    }

    /** onFilesModifiedTimeout: dirty are the modified files and whatever some unit ever merged
        has include one of them, and what is passed to index() is exactly the known sources among
        them. When there is none, all files that wait to be purged are purged at once. */
    method OnFilesModified() returns (toIndex: set<FileId>, ghost dirty: set<FileId>)
      requires Valid()
      modifies this`tables, this`rounds, this`pendingDirtyFiles, this`modifiedFiles
      ensures Valid()
      ensures IsClosure(old(rounds), old(modifiedFiles), dirty) && toIndex == dirty * sources
      ensures Now() == TimedOut(old(Now()), dirty)
      // no dirty file is forgotten: all wait to be purged by the next write, or are purged now
      ensures modifiedFiles == {}
      ensures toIndex != {} ==> pendingDirtyFiles == old(pendingDirtyFiles) + dirty && rounds == old(rounds)
      ensures toIndex == {} ==> pendingDirtyFiles == {}
      ensures toIndex == {} && old(pendingDirtyFiles) + dirty != {} ==>
        rounds == old(rounds) + [Round(old(pendingDirtyFiles) + dirty, iset{})]
    {
      var dirtyFiles;
      dirtyFiles, toIndex := Affected(modifiedFiles, sources, tables, rounds);
      dirty := dirtyFiles;
      pendingDirtyFiles := pendingDirtyFiles + dirtyFiles;
      modifiedFiles := {};
      if toIndex == {} && pendingDirtyFiles != {} {
        tables := PurgeNow(pendingDirtyFiles, tables, rounds);
        rounds := rounds + [Round(pendingDirtyFiles, iset{})];
        pendingDirtyFiles := {};
      }
    }
  }

  method Affected(modified: set<FileId>, sources: set<FileId>, t: Tables, ghost rounds: seq<Round>)
    returns (dirty: set<FileId>, toIndex: set<FileId>)
    requires Say(t, FactsAfter(rounds))
    ensures IsClosure(rounds, modified, dirty) && toIndex == dirty * sources
  {
    dirty := CollectDirty(modified, t.dependencies);
    toIndex := SourcesAmong(dirty, sources);
    ClosureIsIncluders(t, rounds, modified);
  }

  /** Purging at once, when no source is left to index. */
  method PurgeNow(dirty: set<FileId>, t: Tables, ghost rounds: seq<Round>) returns (r: Tables)
    requires Say(t, FactsAfter(rounds))
    ensures Say(r, FactsAfter(rounds + [Round(dirty, iset{})]))
  {
    r := Purge(dirty, t, FactsAfter(rounds));
    FactsAfterRound(rounds, Round(dirty, iset{}));
    assert Without(FactsAfter(rounds), dirty) + iset{} == Without(FactsAfter(rounds), dirty);
  }

  /** Whoever was ever merged with h in its include tree, and nobody else, is recorded as
      depending on h. */
  lemma DependentsAreIncluders(t: Tables, rounds: seq<Round>, s: FileId, h: FileId)
    requires Say(t, FactsAfter(rounds))
    ensures s in At(t.dependencies, h) <==> Included(rounds, s, h)
  {
    FactsIffDeclared(rounds, |rounds|, IncludedBy(h, s));
    SaysAt(t, FactsAfter(rounds), Location(0, 0), Location(0, 0), "", h, s);
    if Included(rounds, s, h) {
      var i :| 0 <= i < |rounds| && IncludedBy(h, s) in rounds[i].added;
      assert UntouchedSince(rounds, i, |rounds|, IncludedBy(h, s));
    }
  }

  lemma ClosureIsIncluders(t: Tables, rounds: seq<Round>, modified: set<FileId>)
    requires Say(t, FactsAfter(rounds))
    ensures IsClosure(rounds, modified, DirtyClosure(t.dependencies, modified))
  {
    forall f, m ensures f in At(t.dependencies, m) <==> Included(rounds, f, m) {
      DependentsAreIncluders(t, rounds, f, m);
    }
  }

  /** The modified files and whatever depends on them. */
  function DirtyClosure(deps: DependencyMap, modified: set<FileId>): set<FileId> {
    modified + set m, s | m in modified && s in At(deps, m) :: s
  }

  method CollectDirty(modified: set<FileId>, deps: DependencyMap) returns (dirty: set<FileId>)
    ensures dirty == DirtyClosure(deps, modified)
  {
    dirty := {};
    var todo := modified;
    while todo != {}
      invariant todo <= modified
      invariant dirty == DirtyClosure(deps, modified - todo)
    {
      var m :| m in todo;
      DirtyClosureStep(deps, modified - todo, m);
      assert modified - (todo - {m}) == (modified - todo) + {m};
      todo := todo - {m};
      dirty := dirty + {m} + At(deps, m);
    }
    assert modified - todo == modified;
  }

  method SourcesAmong(dirty: set<FileId>, sources: set<FileId>) returns (toIndex: set<FileId>)
    ensures toIndex == dirty * sources
  {
    toIndex := {};
    var todo := dirty;
    while todo != {}
      invariant todo <= dirty
      invariant toIndex == (dirty - todo) * sources
    {
      var s :| s in todo;
      todo := todo - {s};
      if s in sources {
        toIndex := toIndex + {s};
      }
    }
  }

  lemma DirtyClosureStep(deps: DependencyMap, modified: set<FileId>, m: FileId)
    ensures DirtyClosure(deps, modified + {m}) == DirtyClosure(deps, modified) + {m} + At(deps, m)
  {
  }
}
