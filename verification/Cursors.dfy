/** The record kept for a symbol (src/CursorInfo.h) and the lookup of the record that covers
    a location (src/RTagsClang.cpp). */
module Cursors {
  import opened Locations
  import opened Native
  import opened Options

  /** The clang cursor kinds the index treats specially. */
  datatype Kind =
    | FirstInvalid | ClassDecl | ClassTemplate | StructDecl | UnionDecl
    | Constructor | Destructor | CXXMethod | OtherKind(code: int)

  datatype CursorInfo = CursorInfo(
    symbolLength: uint16, symbolName: string, kind: Kind, typeKind: int, enumValue: int,
    targets: set<Location>, references: set<Location>, start: int, end: int)
  {
    predicate IsClass() {
      kind == ClassDecl || kind == ClassTemplate || kind == StructDecl
    }

    /** unite: the sets are joined, the scalar fields are kept if they were ever set.
        The flag says exactly whether anything changed. */
    function Unite(other: CursorInfo): (r: (CursorInfo, bool))
      ensures r.1 <==> r.0 != this
      ensures r.0.targets == targets + other.targets
      ensures r.0.references == references + other.references
      // a description that was set is kept, else that of the other is taken, and so for the extent
      ensures var i := if symbolLength != 0 || other.symbolLength == 0 then this else other;
        && r.0.symbolLength == i.symbolLength && r.0.kind == i.kind && r.0.symbolName == i.symbolName
        && r.0.typeKind == i.typeKind && r.0.enumValue == i.enumValue
      ensures var i := if start != -1 || end != -1 || other.start == -1 || other.end == -1 then this else other;
        r.0.start == i.start && r.0.end == i.end
    {
      var c1 := !(other.targets <= targets);
      var i1 := this.(targets := targets + other.targets);
      var c2 := end == -1 && start == -1 && other.start != -1 && other.end != -1;
      var i2 := if c2 then i1.(start := other.start, end := other.end) else i1;
      var c3 := symbolLength == 0 && other.symbolLength != 0;
      var i3 :=
        if c3 then
          i2.(symbolLength := other.symbolLength, kind := other.kind, enumValue := other.enumValue,
              typeKind := other.typeKind, symbolName := other.symbolName)
        else i2;
      var c4 := !(other.references <= references);
      assert !c1 ==> i1 == this;
      assert !c4 ==> references + other.references == references;
      (i3.(references := references + other.references), c1 || c2 || c3 || c4)
    }

    /** dirty: drops every target and reference in a dirty file. */
    function Dirty(dirty: set<FileId>): (r: (CursorInfo, bool))
      ensures r.1 <==> r.0 != this
      ensures forall l :: l in r.0.targets <==> l in targets && l.fileId !in dirty
      ensures forall l :: l in r.0.references <==> l in references && l.fileId !in dirty
    {
      var t := CleanSet(targets, dirty);
      var f := CleanSet(references, dirty);
      (this.(targets := t, references := f), t != targets || f != references)
    }
  }

  const NO_CURSOR := CursorInfo(0, "", FirstInvalid, 0, 0, {}, {}, -1, -1)

  function CleanSet(s: set<Location>, dirty: set<FileId>): (r: set<Location>)
    ensures forall l :: l in r <==> l in s && l.fileId !in dirty
  {
    set l | l in s && l.fileId !in dirty
  }

  type SymbolMap = map<Location, CursorInfo>

  // --- findCursorInfo ---

  /** lower_bound: the keys from the first one not less than loc; empty when it is end(). */
  function FromLowerBound(m: SymbolMap, loc: Location): set<Location> {
    set k | k in m && !Less(k, loc)
  }

  /** The lookup steps back from the lower bound, which is only possible if a key is below it. */
  predicate HasFloor(m: SymbolMap, loc: Location) {
    m == map[] || exists k :: k in m && !Less(loc, k)
  }

  /** The key of the entry found for loc, or None for end(). */
  function FindCursorInfo(m: SymbolMap, loc: Location): (r: Option<Location>)
    requires HasFloor(m, loc)
    ensures r.Some? ==> r.value in m
  {
    if m == map[] then None
    else if loc in m then Some(loc)
    else
      // --lower_bound(loc): the last key before it, or the last key of all
      var before := m.Keys - FromLowerBound(m, loc);
      var k: Location :| k in m && !Less(loc, k);
      assert k in before;
      var it := Last(before);
      if loc.fileId != it.fileId then None
      else if m[it].symbolLength > ToInt32(loc.offset - it.offset) then Some(it)
      else None
  }

  /** k is the nearest key at or below loc. */
  ghost predicate IsFloor(m: SymbolMap, loc: Location, k: Location) {
    k in m && !Less(loc, k) && forall j :: j in m && !Less(loc, j) ==> j == k || Less(j, k)
  }

  predicate Covers(m: SymbolMap, k: Location, loc: Location)
    requires k in m
  {
    k.fileId == loc.fileId && k.offset <= loc.offset && loc.offset < k.offset + m[k].symbolLength
  }

  /** What a scan of the whole map would answer: the floor, if it is loc itself or covers loc. */
  ghost predicate ScanAnswers(m: SymbolMap, loc: Location, r: Option<Location>) {
    match r
    case Some(k) => IsFloor(m, loc, k) && (k == loc || Covers(m, k, loc))
    case None => forall k :: IsFloor(m, loc, k) ==> k != loc && !Covers(m, k, loc)
  }

  /** The lookup answers as the scan would, exactly unless the floor lies in the same file
      2^31 or more bytes before the location, where the signed difference turns negative. */
  lemma FindMatchesScanIff(m: SymbolMap, loc: Location)
    requires HasFloor(m, loc)
    ensures ScanAnswers(m, loc, FindCursorInfo(m, loc)) <==>
            !exists k :: IsFloor(m, loc, k) && k.fileId == loc.fileId && loc.offset - k.offset >= TWO_31
  {
    if m != map[] {
      var k := FloorOf(m, loc);
      forall j | IsFloor(m, loc, j) ensures j == k {
      }
    }
  }

  /** The key the lookup ends up at is the nearest one at or below loc. */
  lemma FloorOf(m: SymbolMap, loc: Location) returns (k: Location)
    requires HasFloor(m, loc) && m != map[]
    ensures IsFloor(m, loc, k)
    ensures k == loc <==> loc in m
    ensures loc !in m ==> IsMax(k, m.Keys - FromLowerBound(m, loc))
  {
    if loc in m {
      k := loc;
    } else {
      var before := m.Keys - FromLowerBound(m, loc);
      var j: Location :| j in m && !Less(loc, j);
      assert j in before;
      k := Last(before);
    }
  }

  ghost predicate ExtentsDisjoint(m: SymbolMap) {
    forall j, k :: j in m && k in m && j.fileId == k.fileId && j.offset < k.offset ==>
                     j.offset + m[j].symbolLength <= k.offset
  }

  /** When no two extents of a file overlap, the symbol found is the one that covers the location. */
  lemma FindsUniqueCover(m: SymbolMap, loc: Location, k: Location)
    requires HasFloor(m, loc) && ExtentsDisjoint(m)
    requires k in m && Covers(m, k, loc)
    ensures FindCursorInfo(m, loc) == Some(k)
    ensures forall j :: j in m && Covers(m, j, loc) ==> j == k
  {
    if loc in m {
      assert k == loc || k.offset < loc.offset;
    } else {
      var before := m.Keys - FromLowerBound(m, loc);
      assert k in before;
      assert IsFloor(m, loc, k);
      assert k == Last(before);
    }
  }
}
