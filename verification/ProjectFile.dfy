/** The file a project is saved in (src/Project.cpp) and the formats of its records
    (src/CursorInfo.h, src/SourceInformation.h, src/Location.h). */
module ProjectFile {
  import opened Codecs
  import opened Cursors
  import opened Locations
  import opened Native
  import opened Options

  // --- Numbers ---

  function FileIdOf(n: nat): FileId {
    if n < TWO_31 then n else 0
  }

  function FileIds(): Codec<FileId> {
    Via(Unsigned(4), (f: FileId) => true, (f: FileId) => f as nat, (n: nat) => FileIdOf(n))
  }

  lemma FileIdsValid()
    ensures Valid(FileIds())
  {
    UnsignedValid(4);
    ViaValid(Unsigned(4), (f: FileId) => true, (f: FileId) => f as nat, (n: nat) => FileIdOf(n));
  }

  // --- Locations: one word ---

  function LocationOf(n: nat): Location {
    if n % TWO_32 < TWO_31 && n / TWO_32 < TWO_32 then Location(n % TWO_32, n / TWO_32) else Location(0, 0)
  }

  function LocationWord(l: Location): nat {
    Pack(l.fileId, l.offset)
  }

  function LocationCodec(): Codec<Location> {
    Via(Unsigned(8), (l: Location) => true, (l: Location) => LocationWord(l), (n: nat) => LocationOf(n))
  }

  lemma LocationsValid()
    ensures Valid(LocationCodec())
  {
    UnsignedValid(8);
    forall l: Location ensures LocationOf(LocationWord(l)) == l {
      PackIsInjective(l.fileId, l.offset, l.fileId, l.offset);
    }
    ViaValid(Unsigned(8), (l: Location) => true, (l: Location) => LocationWord(l), (n: nat) => LocationOf(n));
  }

  // --- Symbols ---

  /** The number clang gives a cursor kind. */
  function KindCode(k: Kind): int {
    match k
    case StructDecl => 2
    case UnionDecl => 3
    case ClassDecl => 4
    case CXXMethod => 21
    case Constructor => 24
    case Destructor => 25
    case ClassTemplate => 31
    case FirstInvalid => 70
    case OtherKind(code) => code
  }

  function KindOf(code: int): Kind {
    if code == 2 then StructDecl
    else if code == 3 then UnionDecl
    else if code == 4 then ClassDecl
    else if code == 21 then CXXMethod
    else if code == 24 then Constructor
    else if code == 25 then Destructor
    else if code == 31 then ClassTemplate
    else if code == 70 then FirstInvalid
    else OtherKind(code)
  }

  type SymbolFields = (nat, (string, (int, (int, (int, (set<Location>, (set<Location>, (int, int))))))))

  function FieldsOf(i: CursorInfo): SymbolFields {
    (i.symbolLength, (i.symbolName, (KindCode(i.kind),
      (i.typeKind, (i.enumValue, (i.targets, (i.references, (i.start, i.end))))))))
  }

  function SymbolOf(f: SymbolFields): CursorInfo {
    var (length, (name, (kind, (typeKind, (enumValue, (targets, (references, (start, end)))))))) := f;
    CursorInfo(if length < 0x1_0000 then length else 0, name, KindOf(kind), typeKind, enumValue,
               targets, references, start, end)
  }

  predicate KindKnown(i: CursorInfo) {
    KindOf(KindCode(i.kind)) == i.kind
  }

  function SymbolFieldsCodec(order: set<Location> -> seq<Location>): Codec<SymbolFields> {
    var places := SetOf(LocationCodec(), order);
    PairOf(Unsigned(2), PairOf(Text(), PairOf(Signed(4), PairOf(Signed(4), PairOf(Signed(8),
      PairOf(places, PairOf(places, PairOf(Signed(4), Signed(4)))))))))
  }

  function Symbols(order: set<Location> -> seq<Location>): Codec<CursorInfo> {
    Via(SymbolFieldsCodec(order), (i: CursorInfo) => KindKnown(i), (i: CursorInfo) => FieldsOf(i),
        (f: SymbolFields) => SymbolOf(f))
  }

  lemma SymbolsValid(order: set<Location> -> seq<Location>)
    requires Enumerates(order)
    ensures Valid(Symbols(order))
  {
    var places := SetOf(LocationCodec(), order);
    LocationsValid();
    SetValid(LocationCodec(), order);
    UnsignedValid(2);
    TextValid();
    SignedValid(4);
    SignedValid(8);
    PairValid(Signed(4), Signed(4));
    var c1 := PairOf(Signed(4), Signed(4));
    PairValid(places, c1);
    var c2 := PairOf(places, c1);
    PairValid(places, c2);
    var c3 := PairOf(places, c2);
    PairValid(Signed(8), c3);
    var c4 := PairOf(Signed(8), c3);
    PairValid(Signed(4), c4);
    var c5 := PairOf(Signed(4), c4);
    PairValid(Signed(4), c5);
    var c6 := PairOf(Signed(4), c5);
    PairValid(Text(), c6);
    PairValid(Unsigned(2), PairOf(Text(), c6));
    ViaValid(SymbolFieldsCodec(order), (i: CursorInfo) => KindKnown(i), (i: CursorInfo) => FieldsOf(i),
             (f: SymbolFields) => SymbolOf(f));
  }

  /** The fields of a symbol follow each other in this order, with these sizes. */
  lemma SymbolLayout(order: set<Location> -> seq<Location>, i: CursorInfo)
    ensures var places := SetOf(LocationCodec(), order);
      Symbols(order).enc(i)
      == Layout(i.symbolLength, 2) + (Text().enc(i.symbolName) + (Signed(4).enc(KindCode(i.kind))
         + (Signed(4).enc(i.typeKind) + (Signed(8).enc(i.enumValue) + (places.enc(i.targets)
         + (places.enc(i.references) + (Signed(4).enc(i.start) + Signed(4).enc(i.end))))))))
  {
    assert Symbols(order).enc(i) == SymbolFieldsCodec(order).enc(FieldsOf(i));
  }

  // --- Sources ---

  datatype SourceInformation = SourceInformation(sourceFile: string, args: seq<string>, compiler: string, parsed: int)

  type SourceFields = (string, (seq<string>, (string, int)))

  function Sources(): Codec<SourceInformation> {
    Via(PairOf(Text(), PairOf(ListOf(Text()), PairOf(Text(), Signed(8)))),
        (i: SourceInformation) => true,
        (i: SourceInformation) => (i.sourceFile, (i.args, (i.compiler, i.parsed))),
        (f: SourceFields) => SourceInformation(f.0, f.1.0, f.1.1.0, f.1.1.1))
  }

  lemma SourcesValid()
    ensures Valid(Sources())
  {
    TextValid();
    SignedValid(8);
    ListValid(Text());
    PairValid(Text(), Signed(8));
    PairValid(ListOf(Text()), PairOf(Text(), Signed(8)));
    var fields := PairOf(Text(), PairOf(ListOf(Text()), PairOf(Text(), Signed(8))));
    PairValid(Text(), PairOf(ListOf(Text()), PairOf(Text(), Signed(8))));
    ViaValid(fields, (i: SourceInformation) => true,
      (i: SourceInformation) => (i.sourceFile, (i.args, (i.compiler, i.parsed))),
      (f: SourceFields) => SourceInformation(f.0, f.1.0, f.1.1.0, f.1.1.1));
  }

  // --- The project ---

  type Places = map<string, set<Location>>

  type Body = (SymbolMap, (Places, (Places, (map<FileId, set<FileId>>, (map<FileId, SourceInformation>, set<FileId>)))))

  /** The order in which the containers of a program run hand out their elements. */
  datatype Orders = Orders(locations: set<Location> -> seq<Location>, names: set<string> -> seq<string>,
                           files: set<FileId> -> seq<FileId>)

  ghost predicate Orderly(o: Orders) {
    Enumerates(o.locations) && Enumerates(o.names) && Enumerates(o.files)
  }

  function PlacesCodec(o: Orders): Codec<Places> {
    MapOf(Text(), SetOf(LocationCodec(), o.locations), o.names)
  }

  lemma PlacesValid(o: Orders)
    requires Orderly(o)
    ensures Valid(PlacesCodec(o))
  {
    TextValid();
    LocationsValid();
    SetValid(LocationCodec(), o.locations);
    MapValid(Text(), SetOf(LocationCodec(), o.locations), o.names);
  }

  function FileSets(o: Orders): Codec<set<FileId>> {
    SetOf(FileIds(), o.files)
  }

  /** What save() writes after the header, and restore() reads: symbols, symbol names, USRs,
      dependencies, sources and visited files. */
  function BodyCodec(o: Orders): Codec<Body> {
    PairOf(MapOf(LocationCodec(), Symbols(o.locations), o.locations),
      PairOf(PlacesCodec(o), PairOf(PlacesCodec(o),
        PairOf(MapOf(FileIds(), FileSets(o), o.files),
          PairOf(MapOf(FileIds(), Sources(), o.files), FileSets(o))))))
  }

  /** All that is saved is read back, whatever order the containers had. */
  lemma BodyValid(o: Orders)
    requires Orderly(o)
    ensures Valid(BodyCodec(o))
  {
    LocationsValid();
    SymbolsValid(o.locations);
    PlacesValid(o);
    FileIdsValid();
    SetValid(FileIds(), o.files);
    SourcesValid();
    var symbols := MapOf(LocationCodec(), Symbols(o.locations), o.locations);
    var dependencies := MapOf(FileIds(), FileSets(o), o.files);
    var sources := MapOf(FileIds(), Sources(), o.files);
    MapValid(LocationCodec(), Symbols(o.locations), o.locations);
    MapValid(FileIds(), FileSets(o), o.files);
    MapValid(FileIds(), Sources(), o.files);
    PairValid(sources, FileSets(o));
    var c1 := PairOf(sources, FileSets(o));
    PairValid(dependencies, c1);
    var c2 := PairOf(dependencies, c1);
    PairValid(PlacesCodec(o), c2);
    var c3 := PairOf(PlacesCodec(o), c2);
    PairValid(PlacesCodec(o), c3);
    PairValid(symbols, PairOf(PlacesCodec(o), c3));
  }

  // --- The file ---

  const DATABASE_VERSION: int32 := 12

  predicate FitsFile(c: Codec<Body>, body: Body) {
    c.ok(body) && 8 + |c.enc(body)| < TWO_31
  }

  function Saved(c: Codec<Body>, body: Body): seq<byte>
    requires FitsFile(c, body)
  {
    Bytes(DATABASE_VERSION) + Bytes(8 + |c.enc(body)|) + c.enc(body)
  }

  /** The two ints that restore() reads first: where the file is too short, what was on the stack
      stays in them. */
  function Header(file: seq<byte>, stack: seq<byte>): (h: seq<byte>)
    requires |stack| == 8
    ensures |h| == 8
  {
    if |file| >= 8 then file[..8] else file + stack[|file|..]
  }

  /** What restore() makes of a file. */
  function Restored(c: Codec<Body>, file: seq<byte>, stack: seq<byte>): Option<Body>
    requires |stack| == 8
  {
    var h := Header(file, stack);
    if Value(h[..4]) != DATABASE_VERSION || Value(h[4..]) != |file| then None
    else match c.dec(if |file| >= 8 then file[8..] else []) case None => None case Some(r) => Some(r.0)
  }

  /** save(): the size in the header is filled in at the end. */
  method Save(c: Codec<Body>, body: Body) returns (file: seq<byte>)
    requires FitsFile(c, body)
    ensures file == Saved(c, body)
  {
    file := Bytes(DATABASE_VERSION);
    var pos := |file|;
    file := file + Bytes(0);
    file := file + c.enc(body);
    var size := |file|;
    assert file[..pos] == Bytes(DATABASE_VERSION) && file[pos + 4..] == c.enc(body);
    file := file[..pos] + Bytes(size) + file[pos + 4..];
  }

  /** restore(): the stack is where its ints are, whatever it holds. */
  method Restore(c: Codec<Body>, file: seq<byte>, stack: seq<byte>) returns (body: Option<Body>)
    requires |stack| == 8
    ensures body == Restored(c, file, stack)
  {
    var header := Header(file, stack);
    var version := Value(header[..4]);
    if version != DATABASE_VERSION {
      return None;
    }
    var size := Value(header[4..]);
    if size != |file| {
      return None;
    }
    var r := c.dec(if |file| >= 8 then file[8..] else []);
    body := if r.Some? then Some(r.value.0) else None;
  }

  lemma HeaderOf(a: seq<byte>, b: seq<byte>, c: seq<byte>, d: seq<byte>)
    requires |a| == |b| == 4
    ensures (a + b + c + d)[..4] == a && (a + b + c + d)[4..8] == b && (a + b + c + d)[8..] == c + d
  {
  }

  /** A saved project restores to equal tables. A file that is longer is refused, and so is one
      that was cut off anywhere, whatever is on the stack. */
  lemma RestoreOfSave(o: Orders, body: Body, more: seq<byte>, cut: nat, stack: seq<byte>)
    requires Orderly(o) && FitsFile(BodyCodec(o), body) && |stack| == 8
    requires cut <= |Saved(BodyCodec(o), body)|
    ensures var c := BodyCodec(o);
      var file := Saved(c, body);
      && Restored(c, file + more, stack) == (if more == [] then Some(body) else None)
      && Restored(c, file[..cut], stack) == (if cut == |file| then Some(body) else None)
  {
    BodyValid(o);
    NoBodyInNothing(o);
    RestoresOnlyWhole(BodyCodec(o), body, more, cut, stack);
  }

  lemma NoBodyInNothing(o: Orders)
    ensures BodyCodec(o).dec([]) == None
  {
  }

  lemma LongerIsRefused(c: Codec<Body>, body: Body, more: seq<byte>, stack: seq<byte>)
    requires Valid(c) && FitsFile(c, body) && |stack| == 8
    ensures Restored(c, Saved(c, body) + more, stack) == (if more == [] then Some(body) else None)
  {
    var file := Saved(c, body);
    HeaderOf(Bytes(DATABASE_VERSION), Bytes(|file|), c.enc(body), more);
    ValueOfBytes(DATABASE_VERSION);
    ValueOfBytes(|file|);
    assert Header(file + more, stack)[..4] == (file + more)[..4];
    assert Header(file + more, stack)[4..] == (file + more)[4..8];
    assert c.dec(c.enc(body) + more) == Some((body, more));
  }

  lemma CutIsRefused(c: Codec<Body>, body: Body, cut: nat, stack: seq<byte>)
    requires FitsFile(c, body) && |stack| == 8 && cut < |Saved(c, body)| && c.dec([]) == None
    ensures Restored(c, Saved(c, body)[..cut], stack) == None
  {
    var file := Saved(c, body);
    if cut >= 8 {
      HeaderOf(Bytes(DATABASE_VERSION), Bytes(|file|), c.enc(body), []);
      ValueOfBytes(|file|);
      assert file + [] == file;
      assert Header(file[..cut], stack)[4..] == file[4..8];
    }
  }

  lemma RestoresOnlyWhole(c: Codec<Body>, body: Body, more: seq<byte>, cut: nat, stack: seq<byte>)
    requires Valid(c) && c.dec([]) == None && FitsFile(c, body) && |stack| == 8 && cut <= |Saved(c, body)|
    ensures Restored(c, Saved(c, body) + more, stack) == (if more == [] then Some(body) else None)
    ensures Restored(c, Saved(c, body)[..cut], stack) == (if cut == |Saved(c, body)| then Some(body) else None)
  {
    var file := Saved(c, body);
    LongerIsRefused(c, body, more, stack);
    if cut < |file| {
      CutIsRefused(c, body, cut, stack);
    } else {
      LongerIsRefused(c, body, [], stack);
      assert file[..cut] == file + [];
    }
  }

  /** A file of another version is refused, however short it is after that. */
  lemma OtherVersionRefused(c: Codec<Body>, version: int32, rest: seq<byte>, stack: seq<byte>)
    requires version != DATABASE_VERSION && |stack| == 8
    ensures Restored(c, Bytes(version) + rest, stack) == None
  {
    ValueOfBytes(version);
    assert Header(Bytes(version) + rest, stack)[..4] == Bytes(version);
  }
}
