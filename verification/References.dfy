/** Walking the reference graph of the index (src/CursorInfo.cpp). */
module References {
  import opened Locations
  import opened Cursors

  datatype Mode = ClassRefs | VirtualRefs | NormalRefs

  predicate ClassLike(c: CursorInfo) {
    c.IsClass() || c.kind == Destructor || c.kind == Constructor
  }

  /** Every location a symbol points to can be looked up (see HasFloor). */
  predicate Answerable(m: SymbolMap, info: CursorInfo) {
    forall l :: l in info.targets + info.references ==> HasFloor(m, l)
  }

  predicate AllAnswerable(m: SymbolMap) {
    forall k :: k in m ==> Answerable(m, m[k])
  }

  /** The record found for a location, the default record if there is none. */
  function InfoAt(m: SymbolMap, l: Location): CursorInfo
    requires HasFloor(m, l)
  {
    var k := FindCursorInfo(m, l);
    if k.Some? then m[k.value] else NO_CURSOR
  }

  predicate Found(m: SymbolMap, l: Location)
    requires HasFloor(m, l)
  {
    FindCursorInfo(m, l).Some?
  }

  /** targetInfos: the record of every target; one that is not found gets the default record. */
  method TargetInfos(m: SymbolMap, info: CursorInfo) returns (r: SymbolMap)
    requires Answerable(m, info)
    ensures r == map t | t in info.targets :: InfoAt(m, t)
  {
    r := map[];
    var todo := info.targets;
    while todo != {}
      invariant todo <= info.targets
      invariant r == map t | t in info.targets && t !in todo :: InfoAt(m, t)
    {
      var t :| t in todo;
      todo := todo - {t};
      var found := FindCursorInfo(m, t);
      r := r[t := if found.Some? then m[found.value] else NO_CURSOR];
    }
  }

  /** referenceInfos: the record of every reference that is found. */
  method ReferenceInfos(m: SymbolMap, info: CursorInfo) returns (r: SymbolMap)
    requires Answerable(m, info)
    ensures r == map l | l in info.references && Found(m, l) :: InfoAt(m, l)
  {
    r := map[];
    var todo := info.references;
    while todo != {}
      invariant todo <= info.references
      invariant r == map l | l in info.references && l !in todo && Found(m, l) :: InfoAt(m, l)
    {
      var l :| l in todo;
      todo := todo - {l};
      var found := FindCursorInfo(m, l);
      if found.Some? {
        r := r[l := m[found.value]];
      }
    }
  }

  // --- The graph a query walks ---

  /** The records a walk goes through, rather than only lists. */
  predicate Entered(mode: Mode, kind: Kind, info: CursorInfo) {
    if mode == ClassRefs then ClassLike(info) else info.kind == kind
  }

  /** What the walk lists on account of a record it goes through: the targets it would go
      through too, and the references that are found (in ClassRefs mode, of what is not a
      class, only those the walk would go through). */
  predicate Lists(m: SymbolMap, mode: Mode, kind: Kind, info: CursorInfo, l: Location)
    requires Answerable(m, info)
  {
    || (l in info.targets && Entered(mode, kind, InfoAt(m, l)))
    || (l in info.references && Found(m, l)
        && (mode == ClassRefs ==> info.IsClass() || ClassLike(InfoAt(m, l))))
  }

  /** A step of the walk: from a location it goes through to one it lists. */
  ghost predicate Step(m: SymbolMap, mode: Mode, kind: Kind, a: Location, b: Location)
    requires AllAnswerable(m)
  {
    && HasFloor(m, a) && Entered(mode, kind, InfoAt(m, a)) && Lists(m, mode, kind, InfoAt(m, a), b)
  }

  ghost predicate IsWalk(m: SymbolMap, mode: Mode, kind: Kind, p: seq<Location>)
    requires AllAnswerable(m)
  {
    p != [] && forall i :: 0 <= i < |p| - 1 ==> Step(m, mode, kind, p[i], p[i + 1])
  }

  ghost predicate Reaches(m: SymbolMap, mode: Mode, kind: Kind, a: Location, b: Location)
    requires AllAnswerable(m)
  {
    exists p :: IsWalk(m, mode, kind, p) && p[0] == a && p[|p| - 1] == b
  }

  lemma ReachesSelf(m: SymbolMap, mode: Mode, kind: Kind, a: Location)
    requires AllAnswerable(m)
    ensures Reaches(m, mode, kind, a, a)
  {
    assert IsWalk(m, mode, kind, [a]);
  }

  lemma ReachesOn(m: SymbolMap, mode: Mode, kind: Kind, a: Location, b: Location, c: Location)
    requires AllAnswerable(m)
    requires Reaches(m, mode, kind, a, b) && Step(m, mode, kind, b, c)
    ensures Reaches(m, mode, kind, a, c)
  {
    var p :| IsWalk(m, mode, kind, p) && p[0] == a && p[|p| - 1] == b;
    var q := p + [c];
    forall i | 0 <= i < |q| - 1 ensures Step(m, mode, kind, q[i], q[i + 1]) {
      if i < |p| - 1 { assert Step(m, mode, kind, p[i], p[i + 1]); }
    }
    assert IsWalk(m, mode, kind, q);
  }

  /** Every location that can ever be listed. */
  function Universe(m: SymbolMap, start: Location): set<Location> {
    {start} + set k, l | k in m && l in m[k].targets + m[k].references :: l
  }

  /** Whatever out holds are true records of locations the start reaches. */
  ghost predicate Sound(m: SymbolMap, mode: Mode, kind: Kind, start: Location, out: SymbolMap)
    requires AllAnswerable(m)
  {
    forall l {:trigger l in out} :: l in out ==>
      l in Universe(m, start) && HasFloor(m, l) && out[l] == InfoAt(m, l) && Reaches(m, mode, kind, start, l)
  }

  /** walked holds locations gone through; in VirtualRefs mode all the listed ones of the kind. */
  ghost predicate Marked(mode: Mode, kind: Kind, out: SymbolMap, walked: set<Location>) {
    walked <= out.Keys
    && (mode == VirtualRefs ==> forall l {:trigger l in out} :: l in out && out[l].kind == kind ==> l in walked)
  }

  /** Whatever these locations lead to is in out. */
  ghost predicate Closed(m: SymbolMap, mode: Mode, kind: Kind, these: set<Location>, out: SymbolMap)
    requires AllAnswerable(m)
  {
    forall a, b {:trigger Step(m, mode, kind, a, b)} :: a in these && Step(m, mode, kind, a, b) ==> b in out
  }

  /** allImpl: lists loc and, unless that was done before, whatever the walk finds from it.
      The set walked collects the locations gone through. It terminates on cyclic graphs
      because every round lists a location that was not listed before. */
  method AllImpl(m: SymbolMap, loc: Location, info: CursorInfo, out: SymbolMap, mode: Mode, kind: Kind,
                 ghost start: Location, ghost walked: set<Location>)
    returns (out': SymbolMap, ghost walked': set<Location>)
    requires AllAnswerable(m)
    requires HasFloor(m, loc) && info == InfoAt(m, loc) && Entered(mode, kind, info)
    requires Sound(m, mode, kind, start, out) && Marked(mode, kind, out, walked)
    requires loc in Universe(m, start) && Reaches(m, mode, kind, start, loc)
    ensures Sound(m, mode, kind, start, out') && Marked(mode, kind, out', walked')
    ensures out.Keys + {loc} <= out'.Keys && walked <= walked'
    ensures loc !in out ==> loc in walked'
    ensures Closed(m, mode, kind, walked' - walked, out')
    decreases Universe(m, start) - out.Keys, 0
  {
    if loc in out {
      return out, walked;
    }
    assert loc in Universe(m, start) - out.Keys;
    out' := out[loc := info];
    var targets := TargetInfos(m, info);
    ghost var w0, w1 := walked + {loc}, {};
    out', w1 := AllTargets(m, loc, info, targets, out', mode, kind, start, w0);
    ghost var out1 := out';
    var refs := ReferenceInfos(m, info);
    out', walked' := AllRefs(m, loc, info, refs, out', mode, kind, start, w1);
    ClosedHere(m, mode, kind, loc, info, refs, out');
    assert walked' - walked <= {loc} + (w1 - w0) + (walked' - w1);
    ClosedTogether(m, mode, kind, {loc}, w1 - w0, walked' - w1, walked' - walked, out1, out');
  }

  lemma ClosedHere(m: SymbolMap, mode: Mode, kind: Kind, loc: Location, info: CursorInfo, refs: SymbolMap,
                   out: SymbolMap)
    requires AllAnswerable(m) && HasFloor(m, loc) && info == InfoAt(m, loc)
    requires refs == map l | l in info.references && Found(m, l) :: InfoAt(m, l)
    requires forall t :: t in info.targets && Entered(mode, kind, InfoAt(m, t)) ==> t in out
    requires forall r :: r in refs && (mode == ClassRefs ==> info.IsClass() || ClassLike(refs[r])) ==> r in out
    ensures Closed(m, mode, kind, {loc}, out)
  {
    forall a, b | a in {loc} && Step(m, mode, kind, a, b) ensures b in out {
      assert Lists(m, mode, kind, info, b);
    }
  }

  lemma ClosedTogether(m: SymbolMap, mode: Mode, kind: Kind,
                       w0: set<Location>, w1: set<Location>, w2: set<Location>, all: set<Location>,
                       out1: SymbolMap, out: SymbolMap)
    requires AllAnswerable(m) && out1.Keys <= out.Keys && all <= w0 + w1 + w2
    requires Closed(m, mode, kind, w0, out) && Closed(m, mode, kind, w1, out1) && Closed(m, mode, kind, w2, out)
    ensures Closed(m, mode, kind, all, out)
  {
  }

  method Enters(mode: Mode, kind: Kind, info: CursorInfo) returns (ok: bool)
    ensures ok <==> Entered(mode, kind, info)
  {
    match mode {
      case VirtualRefs => ok := info.kind == kind;
      case NormalRefs => ok := info.kind == kind;
      case ClassRefs => ok := info.IsClass() || info.kind == Destructor || info.kind == Constructor;
    }
  }

  /** The loop over the targets. */
  method AllTargets(m: SymbolMap, loc: Location, info: CursorInfo, targets: SymbolMap, out: SymbolMap,
                    mode: Mode, kind: Kind, ghost start: Location, ghost walked: set<Location>)
    returns (out': SymbolMap, ghost walked': set<Location>)
    requires AllAnswerable(m)
    requires HasFloor(m, loc) && info == InfoAt(m, loc) && Entered(mode, kind, info)
    requires targets == map t | t in info.targets :: InfoAt(m, t)
    requires Sound(m, mode, kind, start, out) && Marked(mode, kind, out, walked)
    requires Reaches(m, mode, kind, start, loc)
    ensures Sound(m, mode, kind, start, out') && Marked(mode, kind, out', walked')
    ensures out.Keys <= out'.Keys && walked <= walked'
    ensures forall t :: t in info.targets && Entered(mode, kind, InfoAt(m, t)) ==> t in out'
    ensures Closed(m, mode, kind, walked' - walked, out')
    decreases Universe(m, start) - out.Keys, 1
  {
    out', walked' := out, walked;
    var todo := targets.Keys;
    while todo != {}
      invariant todo <= targets.Keys
      invariant Sound(m, mode, kind, start, out') && Marked(mode, kind, out', walked')
      invariant out.Keys <= out'.Keys && walked <= walked'
      invariant forall t :: t in info.targets - todo && Entered(mode, kind, InfoAt(m, t)) ==> t in out'
      invariant Closed(m, mode, kind, walked' - walked, out')
    {
      var t :| t in todo;
      todo := todo - {t};
      var ok := Enters(mode, kind, targets[t]);
      if ok {
        Onward(m, mode, kind, start, loc, t);
        ghost var before := walked';
        out', walked' := AllImpl(m, t, targets[t], out', mode, kind, start, walked');
        assert walked' - walked == (walked' - before) + (before - walked);
      }
    }
  }

  /** The loop over the references. */
  method AllRefs(m: SymbolMap, loc: Location, info: CursorInfo, refs: SymbolMap, out: SymbolMap,
                 mode: Mode, kind: Kind, ghost start: Location, ghost walked: set<Location>)
    returns (out': SymbolMap, ghost walked': set<Location>)
    requires AllAnswerable(m)
    requires HasFloor(m, loc) && info == InfoAt(m, loc) && Entered(mode, kind, info)
    requires refs == map l | l in info.references && Found(m, l) :: InfoAt(m, l)
    requires Sound(m, mode, kind, start, out) && Marked(mode, kind, out, walked)
    requires Reaches(m, mode, kind, start, loc)
    ensures Sound(m, mode, kind, start, out') && Marked(mode, kind, out', walked')
    ensures out.Keys <= out'.Keys && walked <= walked'
    ensures forall r :: r in refs && (mode == ClassRefs ==> info.IsClass() || ClassLike(refs[r])) ==> r in out'
    ensures Closed(m, mode, kind, walked' - walked, out')
    decreases Universe(m, start) - out.Keys, 2
  {
    out', walked' := out, walked;
    var todo := refs.Keys;
    while todo != {}
      invariant todo <= refs.Keys
      invariant Sound(m, mode, kind, start, out') && Marked(mode, kind, out', walked')
      invariant out.Keys <= out'.Keys && walked <= walked'
      invariant forall r :: r in refs.Keys - todo && (mode == ClassRefs ==> info.IsClass() || ClassLike(refs[r])) ==>
        r in out'
      invariant Closed(m, mode, kind, walked' - walked, out')
    {
      var r :| r in todo;
      todo := todo - {r};
      ghost var before, out1 := walked', out';
      out', walked' := OneRef(m, loc, info, r, refs[r], out', mode, kind, start, walked');
      ClosedTogether(m, mode, kind, {}, before - walked, walked' - before, walked' - walked, out1, out');
    }
  }

  /** What is done for one reference, by mode. */
  method OneRef(m: SymbolMap, loc: Location, info: CursorInfo, r: Location, ref: CursorInfo, out: SymbolMap,
                mode: Mode, kind: Kind, ghost start: Location, ghost walked: set<Location>)
    returns (out': SymbolMap, ghost walked': set<Location>)
    requires AllAnswerable(m)
    requires HasFloor(m, loc) && info == InfoAt(m, loc) && Entered(mode, kind, info)
    requires r in info.references && Found(m, r) && ref == InfoAt(m, r)
    requires Sound(m, mode, kind, start, out) && Marked(mode, kind, out, walked)
    requires Reaches(m, mode, kind, start, loc)
    ensures Sound(m, mode, kind, start, out') && Marked(mode, kind, out', walked')
    ensures out.Keys <= out'.Keys && walked <= walked'
    ensures (mode == ClassRefs ==> info.IsClass() || ClassLike(ref)) ==> r in out'
    ensures Closed(m, mode, kind, walked' - walked, out')
    decreases Universe(m, start) - out.Keys, 1
  {
    out', walked' := out, walked;
    if mode == ClassRefs ==> info.IsClass() || ClassLike(ref) {
      Onward(m, mode, kind, start, loc, r);
    }
    match mode {
      case NormalRefs =>
        out' := out'[r := ref];
      case VirtualRefs =>
        if ref.kind == kind {
          out', walked' := AllImpl(m, r, ref, out', mode, kind, start, walked');
        } else {
          out' := out'[r := ref];
        }
      case ClassRefs =>
        if info.IsClass() {
          out' := out'[r := ref];
        }
        if ref.IsClass() || ref.kind == Destructor || ref.kind == Constructor {
          out', walked' := AllImpl(m, r, ref, out', mode, kind, start, walked');
        }
    }
  }

  /** What a location that was gone through lists is reached too, and can be listed at all. */
  lemma Onward(m: SymbolMap, mode: Mode, kind: Kind, start: Location, loc: Location, l: Location)
    requires AllAnswerable(m) && HasFloor(m, loc) && Entered(mode, kind, InfoAt(m, loc))
    requires Reaches(m, mode, kind, start, loc) && Lists(m, mode, kind, InfoAt(m, loc), l)
    ensures Reaches(m, mode, kind, start, l) && l in Universe(m, start) && HasFloor(m, l)
  {
    ReachesOn(m, mode, kind, start, loc, l);
    var k := FindCursorInfo(m, loc);
    assert k.Some? && l in m[k.value].targets + m[k.value].references;
  }

  /** All the classes, constructors and destructors that the symbol targets or is referenced by
      and, of a class, everything it is referenced by. */
  ghost predicate ListsAround(m: SymbolMap, info: CursorInfo, out: SymbolMap)
    requires Answerable(m, info)
  {
    var classes := {ClassDecl, ClassTemplate, StructDecl};
    var kinds := classes + {Constructor, Destructor};
    && (forall l :: l in info.targets && InfoAt(m, l).kind in kinds ==> l in out)
    && (forall l :: l in info.references && Found(m, l) && (info.kind in classes || InfoAt(m, l).kind in kinds) ==>
          l in out)
  }

  lemma AroundIsListed(m: SymbolMap, loc: Location, info: CursorInfo, out: SymbolMap, walked: set<Location>)
    requires AllAnswerable(m) && HasFloor(m, loc) && info == InfoAt(m, loc) && ClassLike(info)
    requires loc in walked && Closed(m, ClassRefs, info.kind, walked, out)
    ensures ListsAround(m, info, out)
  {
    forall l | Lists(m, ClassRefs, info.kind, info, l) ensures l in out {
      assert Step(m, ClassRefs, info.kind, loc, l);
    }
  }

  /** allReferences: true records. For classes, constructors and destructors, of locations the
      start reaches over these, and of all that the start itself leads to; for everything else,
      of exactly the locations it reaches over symbols of its own kind. */
  method AllReferences(m: SymbolMap, loc: Location, info: CursorInfo) returns (out: SymbolMap)
    requires AllAnswerable(m) && HasFloor(m, loc) && info == InfoAt(m, loc)
    ensures loc in out && forall l :: l in out ==> HasFloor(m, l) && out[l] == InfoAt(m, l)
    ensures if info.kind in {ClassDecl, ClassTemplate, StructDecl, Constructor, Destructor}
            then (forall l :: l in out ==> Reaches(m, ClassRefs, info.kind, loc, l)) && ListsAround(m, info, out)
            else forall l :: l in out <==> Reaches(m, VirtualRefs, info.kind, loc, l)
  {
    var mode := NormalRefs;
    match info.kind {
      case Constructor => mode := ClassRefs;
      case Destructor => mode := ClassRefs;
      case CXXMethod => mode := VirtualRefs;
      case _ => mode := if info.IsClass() then ClassRefs else VirtualRefs;
    }
    ReachesSelf(m, mode, info.kind, loc);
    ghost var walked;
    out, walked := AllImpl(m, loc, info, map[], mode, info.kind, loc, {});
    assert walked - {} == walked;
    if mode == ClassRefs {
      AroundIsListed(m, loc, info, out, walked);
    }
    if mode == VirtualRefs {
      forall l | Reaches(m, mode, info.kind, loc, l) ensures l in out {
        ClosedIsComplete(m, info.kind, loc, out, walked, l);
      }
    }
  }

  /** What is closed under steps and holds the start holds all the start reaches. */
  lemma ClosedIsComplete(m: SymbolMap, kind: Kind, start: Location, out: SymbolMap, walked: set<Location>, l: Location)
    requires AllAnswerable(m)
    requires Sound(m, VirtualRefs, kind, start, out) && Marked(VirtualRefs, kind, out, walked)
    requires Closed(m, VirtualRefs, kind, walked, out) && start in out
    requires Reaches(m, VirtualRefs, kind, start, l)
    ensures l in out
  {
    var p :| IsWalk(m, VirtualRefs, kind, p) && p[0] == start && p[|p| - 1] == l;
    var i := 0;
    while i < |p| - 1
      invariant 0 <= i < |p| && p[i] in out
    {
      assert Step(m, VirtualRefs, kind, p[i], p[i + 1]);
      assert out[p[i]].kind == kind;
      i := i + 1;
    }
  }

  function OfKind(s: SymbolMap, kind: Kind): SymbolMap {
    map l | l in s && s[l].kind == kind :: s[l]
  }

  /** virtuals: the records of the kind asked about, among all references for a method and
      among the direct targets otherwise; the symbol itself is always there. */
  method Virtuals(m: SymbolMap, loc: Location, info: CursorInfo) returns (out: SymbolMap)
    requires AllAnswerable(m) && HasFloor(m, loc) && info == InfoAt(m, loc)
    ensures forall l :: l in out ==> HasFloor(m, l) && out[l] == InfoAt(m, l) && out[l].kind == info.kind
    ensures info.kind == CXXMethod ==> forall l ::
                l in out <==>
                  Reaches(m, VirtualRefs, CXXMethod, loc, l) && HasFloor(m, l) && InfoAt(m, l).kind == CXXMethod
    ensures info.kind != CXXMethod ==> forall l ::
                l in out <==> l == loc || (l in info.targets && InfoAt(m, l).kind == info.kind)
  {
    if info.kind == CXXMethod {
      var s := AllReferences(m, loc, info);
      out := map[loc := info] + OfKind(s, info.kind);
      assert forall l :: l in out <==> l in s && s[l].kind == CXXMethod;
    } else {
      var s := TargetInfos(m, info);
      out := map[loc := info] + OfKind(s, info.kind);
    }
  }
}
