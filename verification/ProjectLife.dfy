/** The life of a project: whatever happens to it, in whatever order, and what its index holds then
    (src/Project.cpp). */
module ProjectLife {
  import opened Locations
  import opened ProjectIndex
  import opened SymbolIndex

  // --- Histories ---

  ghost predicate IsHistory(es: seq<Event>, n: nat, run: seq<Trace>) {
    && |run| == n + 1 <= |es| + 1 && run[0] == NEW
    && forall k :: 0 <= k < n ==> Steps(run[k], es[k], run[k + 1])
  }

  /** The units that wait to be merged after n events, by the events alone. */
  function PendingAfter(es: seq<Event>, n: nat): map<FileId, IndexData>
    requires n <= |es|
  {
    if n == 0 then map[]
    else
      var before := PendingAfter(es, n - 1);
      match es[n - 1]
      case JobFinished(s, data) => before[s := data]
      case Indexed(s) => before - {s}
      case AllFinished => map[]
      case _ => before
  }

  lemma {:induction false} PendingIs(es: seq<Event>, n: nat, run: seq<Trace>, k: nat)
    requires IsHistory(es, n, run) && k <= n
    ensures run[k].pending == PendingAfter(es, k)
  {
    if k > 0 {
      PendingIs(es, n, run, k - 1);
      assert Steps(run[k - 1], es[k - 1], run[k]);
    }
  }

  /** What the k-th event purges. */
  function Purged(run: seq<Trace>, k: nat): set<FileId>
    requires k + 1 < |run|
  {
    if |run[k + 1].rounds| > |run[k].rounds| then run[k + 1].rounds[|run[k].rounds|].dirty else {}
  }

  /** When something is there that is added at some moments and removed at others. */
  ghost predicate Stays(adds: nat -> bool, removes: nat -> bool, k: nat, n: nat) {
    k < n && adds(k) && forall j: nat :: k < j < n ==> !removes(j)
  }

  ghost predicate IsThere(adds: nat -> bool, removes: nat -> bool, n: nat) {
    exists k: nat :: Stays(adds, removes, k, n)
  }

  lemma IsThereNext(adds: nat -> bool, removes: nat -> bool, n: nat)
    ensures IsThere(adds, removes, n + 1) <==> adds(n) || (IsThere(adds, removes, n) && !removes(n))
  {
    if adds(n) {
      assert Stays(adds, removes, n, n + 1);
    } else if IsThere(adds, removes, n) && !removes(n) {
      var k: nat :| Stays(adds, removes, k, n);
      assert Stays(adds, removes, k, n + 1);
    }
    if IsThere(adds, removes, n + 1) {
      var k: nat :| Stays(adds, removes, k, n + 1);
      assert k < n ==> Stays(adds, removes, k, n) && !removes(n);
    }
  }

  /** The units that wait when all jobs have finished declare it. */
  ghost function Declaring(es: seq<Event>, x: Fact): nat -> bool {
    (k: nat) => k < |es| && es[k].AllFinished? && x in AllUnitFacts(PendingAfter(es, k))
  }

  /** A file it is about is purged. */
  ghost function Purging(run: seq<Trace>, x: Fact): nat -> bool {
    (k: nat) => k + 1 < |run| && x.Touches(Purged(run, k))
  }

  /** Some units that were merged among the first n events declared it, and nothing that happened
      later purged a file it is about. */
  ghost predicate SomeDeclared(es: seq<Event>, run: seq<Trace>, n: nat, x: Fact) {
    IsThere(Declaring(es, x), Purging(run, x), n)
  }

  lemma HistoryStep(es: seq<Event>, n: nat, run: seq<Trace>, k: nat, x: Fact)
    requires IsHistory(es, n, run) && k < n
    ensures x in FactsAfter(run[k + 1].rounds) <==>
      || (es[k].AllFinished? && x in AllUnitFacts(PendingAfter(es, k)))
      || (x in FactsAfter(run[k].rounds) && !x.Touches(Purged(run, k)))
  {
    assert Steps(run[k], es[k], run[k + 1]);
    PendingIs(es, n, run, k);
    var a, b := run[k], run[k + 1];
    if |b.rounds| > |a.rounds| {
      assert b.rounds == a.rounds + [b.rounds[|a.rounds|]];
      FactsAfterRound(a.rounds, b.rounds[|a.rounds|]);
    } else {
      TouchesNothing(x);
    }
  }

  lemma TouchesNothing(x: Fact)
    ensures !x.Touches({})
  {
  }

  /** The facts of a project's rounds are those its events declared: those of units that were
      finished, not sent to be indexed again, and merged, as far as nothing later purged them. */
  lemma {:induction false} HistoryDeclares(es: seq<Event>, n: nat, run: seq<Trace>, k: nat, x: Fact)
    requires IsHistory(es, n, run) && k <= n
    ensures x in FactsAfter(run[k].rounds) <==> SomeDeclared(es, run, k, x)
  {
    if k > 0 {
      HistoryDeclares(es, n, run, k - 1, x);
      HistoryStep(es, n, run, k - 1, x);
      IsThereNext(Declaring(es, x), Purging(run, x), k - 1);
    }
  }

  lemma LifeDeclares(es: seq<Event>, run: seq<Trace>)
    requires IsHistory(es, |es|, run)
    ensures forall x :: Declared(run[|es|].rounds, |run[|es|].rounds|, x) <==> SomeDeclared(es, run, |es|, x)
  {
    var rounds := run[|es|].rounds;
    forall x ensures Declared(rounds, |rounds|, x) <==> SomeDeclared(es, run, |es|, x) {
      FactsIffDeclared(rounds, |rounds|, x);
      HistoryDeclares(es, |es|, run, |es|, x);
    }
  }

  // --- The life of a project ---

  method Happen(p: Project, e: Event)
    requires p.Valid() && (e.JobFinished? ==> IndexedAs(e.data, e.s))
    modifies p
    ensures p.Valid() && Steps(old(p.Now()), e, p.Now())
  {
    match e {
      case FileModified(file) => p.OnFileModified(file);
      case Timeout => var _, _ := p.OnFilesModified();
      case Indexed(s) => p.Index(s);
      case JobFinished(s, data) => p.OnJobFinished(s, data);
      case AllFinished => p.Write();
    }
  }

  lemma HistoryGrows(es: seq<Event>, n: nat, run: seq<Trace>, next: Trace)
    requires n < |es| && IsHistory(es, n, run) && Steps(run[n], es[n], next)
    ensures IsHistory(es, n + 1, run + [next]) && (run + [next])[n + 1] == next
  {
    var longer := run + [next];
    forall k | 0 <= k < n + 1 ensures Steps(longer[k], es[k], longer[k + 1]) {
      assert longer[k] == run[k] && (k < n ==> longer[k + 1] == run[k + 1]);
    }
  }

  method LiveOn(es: seq<Event>) returns (p: Project, ghost run: seq<Trace>)
    requires forall e: Event :: e in es && e.JobFinished? ==> IndexedAs(e.data, e.s)
    ensures p.Valid() && IsHistory(es, |es|, run) && run[|es|] == p.Now()
  {
    p := new Project();
    run := [p.Now()];
    for i := 0 to |es|
      invariant fresh(p) && p.Valid() && IsHistory(es, i, run) && run[i] == p.Now()
    {
      assert es[i] in es;
      Happen(p, es[i]);
      HistoryGrows(es, i, run, p.Now());
      run := run + [p.Now()];
    }
  }

  /** Whatever happens to a new project, in whatever order: its tables are the index of what its
      events have declared. */
  method Live(es: seq<Event>) returns (p: Project, ghost run: seq<Trace>)
    requires forall e: Event :: e in es && e.JobFinished? ==> IndexedAs(e.data, e.s)
    ensures p.Valid() && IsHistory(es, |es|, run) && run[|es|] == p.Now()
    ensures IsIndexOf(p.tables, p.rounds) && Linked(p.tables.symbols, p.tables.usr)
    ensures forall x :: Declared(p.rounds, |p.rounds|, x) <==> SomeDeclared(es, run, |es|, x)
  {
    p, run := LiveOn(es);
    IndexIsDeclared(p.tables, p.rounds);
    LifeDeclares(es, run);
  }

  lemma NothingIncluded(modified: set<FileId>, dirty: set<FileId>)
    requires IsClosure([], modified, dirty)
    ensures dirty == modified
  {
    forall f ensures f in dirty <==> f in modified {
    }
  }

  lemma NoneToIndex(sources: set<FileId>, modified: set<FileId>, pending: map<FileId, IndexData>)
    requires modified * sources == {} && modified != {}
    ensures TimedOut(Trace([], sources, modified, {}, pending), modified)
         == Trace([Round(modified, iset{})], sources, {}, {}, pending)
  {
    assert {} + modified == modified;
  }

  method UnitWaits(s: FileId, h: FileId, data: IndexData) returns (p: Project)
    requires IndexedAs(data, s) && h != 0
    ensures fresh(p) && p.Valid() && p.Now() == Trace([], {s}, {h}, {}, map[s := data])
  {
    p := new Project();
    p.Index(s);
    p.OnJobFinished(s, data);
    p.OnFileModified(h);
  }

  method NotIndexed(s: FileId, h: FileId, data: IndexData) returns (p: Project, toIndex: set<FileId>)
    requires IndexedAs(data, s) && h != s && h != 0
    ensures toIndex == {} && fresh(p) && p.Valid()
    ensures p.Now() == Trace([Round({h}, iset{})], {s}, {}, {}, map[s := data])
  {
    p := UnitWaits(s, h, data);
    ghost var dirty;
    toIndex, dirty := p.OnFilesModified();
    NothingIncluded({h}, dirty);
    NoneToIndex({s}, {h}, map[s := data]);
  }

  /** A source whose result waits is not passed to index() when a file of its include tree is
      modified, unless it was merged with a modified file before or is modified itself: the
      result, which the modification has made stale, is merged. */
  method StaleUnitIsMerged(s: FileId, h: FileId, data: IndexData) returns (p: Project, toIndex: set<FileId>)
    requires IndexedAs(data, s) && h in data.dependencies && h != s && h != 0
    ensures toIndex == {} && p.Valid()
    ensures p.Now() == Trace([Round({h}, iset{}), Round({}, AllUnitFacts(map[s := data]))], {s}, {}, {}, map[])
  {
    p, toIndex := NotIndexed(s, h, data);
    p.Write();
  }
}
