/** What becomes of the parsed translation units in any run of jobs that put them into the cache and
    take them out again (src/Project.cpp). */
module UnitRuns {
  import opened UnitCache

  // --- Where every unit is ---

  /** The cached entries, the units held by jobs, and those that were disposed of. */
  datatype World = World(cached: seq<Entry>, held: set<Unit>, disposed: set<Unit>)

  datatype Event =
    | Create(unit: Unit)
    | Add(entry: Entry)
    | Take(path: Path, args: Args)
    | Dispose(unit: Unit)

  function Units(s: seq<Entry>): set<Unit> {
    set e | e in s :: e.unit
  }

  function Known(w: World): set<Unit> {
    Units(w.cached) + w.held + w.disposed
  }

  /** A job can only hand in or dispose of a unit it holds; a parsed unit is a new one. */
  predicate Enabled(w: World, e: Event) {
    match e
    case Create(u) => u !in Known(w)
    case Add(entry) => entry.unit in w.held
    case Take(_, _) => true
    case Dispose(u) => u in w.held
  }

  function Next(w: World, max: nat, e: Event): World
    requires max >= 1 && |w.cached| <= max
  {
    match e
    case Create(u) => w.(held := w.held + {u})
    case Add(entry) =>
      World(Added(w.cached, entry, max), w.held - {entry.unit}, w.disposed + Evicted(w.cached, max))
    case Take(path, args) =>
      var i := FirstMatch(w.cached, path, args);
      if i < |w.cached| then w.(cached := Without(w.cached, i), held := w.held + {w.cached[i].unit}) else w
    case Dispose(u) => w.(held := w.held - {u}, disposed := w.disposed + {u})
  }

  predicate Distinct(s: seq<Entry>) {
    forall i, j :: 0 <= i < j < |s| ==> s[i].unit != s[j].unit
  }

  /** Every unit is in one place only, and the bound is kept. */
  predicate Accounted(w: World, max: nat) {
    && |w.cached| <= max && Distinct(w.cached)
    && Units(w.cached) !! w.held !! w.disposed
  }

  predicate Legal(w: World, max: nat, es: seq<Event>)
    requires max >= 1 && |w.cached| <= max
    decreases |es|
  {
    es == [] || (Enabled(w, es[0]) && Legal(Next(w, max, es[0]), max, es[1..]))
  }

  function Run(w: World, max: nat, es: seq<Event>): World
    requires max >= 1 && |w.cached| <= max && Legal(w, max, es)
    decreases |es|
  {
    if es == [] then w else Run(Next(w, max, es[0]), max, es[1..])
  }

  function Created(es: seq<Event>): set<Unit> {
    set e | e in es && e.Create? :: e.unit
  }

  lemma UnitsOfParts(s: seq<Entry>, i: nat)
    requires i < |s| && Distinct(s)
    ensures Units(s) == Units(Without(s, i)) + {s[i].unit} && s[i].unit !in Units(Without(s, i))
    ensures Distinct(Without(s, i))
  {
    forall e | e in s ensures e in Without(s, i) || e == s[i] {
      var j :| 0 <= j < |s| && s[j] == e;
      assert j < i ==> Without(s, i)[j] == e;
      assert j > i ==> Without(s, i)[j - 1] == e;
    }
  }

  lemma UnitsOfAppend(s: seq<Entry>, e: Entry)
    ensures Units(s + [e]) == Units(s) + {e.unit}
    ensures Distinct(s) && e.unit !in Units(s) ==> Distinct(s + [e])
  {
    assert forall x :: x in s + [e] <==> x in s || x == e;
    assert forall x :: x in s ==> x.unit in Units(s);
  }

  lemma NextAccounts(w: World, max: nat, e: Event)
    requires max >= 1 && Accounted(w, max) && Enabled(w, e)
    ensures Accounted(Next(w, max, e), max)
    ensures Known(Next(w, max, e)) == Known(w) + if e.Create? then {e.unit} else {}
  {
    match e {
      case Add(entry) =>
        if |w.cached| == max {
          UnitsOfParts(w.cached, 0);
          assert Without(w.cached, 0) == w.cached[1..];
          UnitsOfAppend(w.cached[1..], entry);
        } else {
          UnitsOfAppend(w.cached, entry);
        }
      case Take(path, args) =>
        var i := FirstMatch(w.cached, path, args);
        if i < |w.cached| {
          UnitsOfParts(w.cached, i);
        }
      case _ =>
    }
  }

  /** In every run each unit that was ever created is in exactly one place: cached once, held by
      a job, or disposed of. So none leaks, none is disposed of twice, and none is used by a job
      while the cache has it. */
  lemma {:induction false} EveryUnitIsSomewhere(w: World, max: nat, es: seq<Event>)
    requires max >= 1 && Accounted(w, max) && Legal(w, max, es)
    ensures Accounted(Run(w, max, es), max)
    ensures Known(Run(w, max, es)) == Known(w) + Created(es)
    decreases |es|
  {
    if es == [] {
      assert Created(es) == {};
    } else {
      NextAccounts(w, max, es[0]);
      EveryUnitIsSomewhere(Next(w, max, es[0]), max, es[1..]);
      assert Created(es) == Created([es[0]]) + Created(es[1..]) by {
        assert forall x :: x in es <==> x == es[0] || x in es[1..];
      }
      assert Created([es[0]]) == if es[0].Create? then {es[0].unit} else {};
    }
  }

  // --- In which order they are ---

  /** The entries that come in, in order. */
  function Entering(es: seq<Event>): seq<Entry> {
    if es == [] then [] else (if es[0].Add? then [es[0].entry] else []) + Entering(es[1..])
  }

  /** These are some of all entries, at those places, in the same order. */
  ghost predicate InOrder(places: seq<nat>, s: seq<Entry>, all: seq<Entry>) {
    && |places| == |s|
    && (forall i :: 0 <= i < |s| ==> places[i] < |all| && s[i] == all[places[i]])
    && (forall i, j :: 0 <= i < j < |s| ==> places[i] < places[j])
  }

  lemma AddInOrder(s: seq<Entry>, e: Entry, max: nat, all: seq<Entry>, places: seq<nat>) returns (places': seq<nat>)
    requires max >= 1 && |s| <= max && InOrder(places, s, all)
    ensures InOrder(places', Added(s, e, max), all + [e])
  {
    places' := (if |s| == max then places[1..] else places) + [|all|];
  }

  lemma TakeInOrder(s: seq<Entry>, i: nat, all: seq<Entry>, places: seq<nat>) returns (places': seq<nat>)
    requires i < |s| && InOrder(places, s, all)
    ensures InOrder(places', Without(s, i), all)
  {
    places' := places[..i] + places[i + 1..];
  }

  lemma NextInOrder(w: World, max: nat, e: Event, all: seq<Entry>, places: seq<nat>) returns (places': seq<nat>)
    requires max >= 1 && |w.cached| <= max && InOrder(places, w.cached, all)
    ensures InOrder(places', Next(w, max, e).cached, all + if e.Add? then [e.entry] else [])
  {
    places' := places;
    assert all + [] == all;
    match e {
      case Add(entry) => places' := AddInOrder(w.cached, entry, max, all, places);
      case Take(path, args) =>
        var i := FirstMatch(w.cached, path, args);
        if i < |w.cached| {
          places' := TakeInOrder(w.cached, i, all, places);
        }
      case _ =>
    }
  }

  lemma Together(a: seq<Entry>, b: seq<Entry>, c: seq<Entry>)
    ensures (a + b) + c == a + (b + c)
  {
  }

  /** In every run the cached entries are in the order in which they came in, so that the one that
      has to go first, and is found first, is the oldest. */
  lemma {:induction false} CachedInOrder(w: World, max: nat, es: seq<Event>, all: seq<Entry>, places: seq<nat>)
    returns (places': seq<nat>)
    requires max >= 1 && Accounted(w, max) && Legal(w, max, es) && InOrder(places, w.cached, all)
    ensures |Run(w, max, es).cached| <= max && InOrder(places', Run(w, max, es).cached, all + Entering(es))
    decreases |es|
  {
    if es == [] {
      places' := places;
      assert all + Entering(es) == all;
    } else {
      var entered := if es[0].Add? then [es[0].entry] else [];
      NextAccounts(w, max, es[0]);
      places' := NextInOrder(w, max, es[0], all, places);
      Together(all, entered, Entering(es[1..]));
      places' := CachedInOrder(Next(w, max, es[0]), max, es[1..], all + entered, places');
    }
  }
}
