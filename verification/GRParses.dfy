/** Parsing a file into the symbols found so far: it finds the same as parsing it on its own
    (src/GRParser.cpp, src/GRTags.cpp). */
module GRParses {
  import opened GRParser
  import opened Locations
  import opened Matching
  import opened Options

  // --- What steps do does not depend on what was recorded before ---

  /** What was recorded on its own, over what was there before. */
  ghost predicate Over(before: Entries, own: Entries, all: Entries) {
    forall n, l :: At(all, n, l) == if At(own, n, l).Some? then At(own, n, l) else At(before, n, l)
  }

  predicate SameControl(a: Machine, b: Machine) {
    a.stack == b.stack && a.scope == b.scope && a.braceCount == b.braceCount
  }

  lemma DefinedOver(before: Entries, a: Entries, b: Entries, a': Entries, b': Entries, scope: seq<string>,
                    name: string, loc: Location)
    requires Over(before, a, b) && Defined(a, a', scope, 0, name, loc) && Defined(b, b', scope, 0, name, loc)
    ensures Over(before, a', b')
  {
  }

  lemma PutOver(before: Entries, a: Entries, b: Entries, name: string, loc: Location)
    requires Over(before, a, b)
    ensures Over(before, Put(a, name, loc, true), Put(b, name, loc, true))
  {
  }

  lemma {:induction false} ChainAt(tokens: seq<Token>, i: int, n: nat, k: nat)
    requires IsChain(tokens, i, n) && k < n
    ensures IsIdentifier(tokens, i + 2 * k) && KindOf(tokens, i + 2 * k + 1) == ColonColon
    decreases n
  {
    if k > 0 {
      ChainAt(tokens, i + 2, n - 1, k - 1);
    }
  }

  lemma ChainQualifies(tokens: seq<Token>, from: int, context: seq<string>, k: nat)
    requires IsContext(tokens, from, context) && k < |context|
    ensures Qualifies(tokens, from - 2 * k)
  {
    ChainAt(tokens, from - 2 * |context|, |context|, |context| - k - 1);
  }

  lemma LongerContext(tokens: seq<Token>, from: int, c: seq<string>, d: seq<string>)
    requires IsContext(tokens, from, c) && IsContext(tokens, from, d)
    ensures |c| >= |d|
  {
    if |c| < |d| {
      ChainQualifies(tokens, from, d, |c|);
    }
  }

  /** The names that qualify a token are all there are before it. */
  lemma OneContext(tokens: seq<Token>, from: int, c: seq<string>, d: seq<string>)
    requires IsContext(tokens, from, c) && IsContext(tokens, from, d)
    ensures c == d
  {
    LongerContext(tokens, from, c, d);
    LongerContext(tokens, from, d, c);
  }

  lemma OpensOver(tokens: seq<Token>, before: Entries, a: Entries, b: Entries, a': Entries, b': Entries,
                  scope: seq<string>, from: int, name: string, loc: Location)
    requires Over(before, a, b)
    requires OpensWith(tokens, a, a', scope, from, name, loc) && OpensWith(tokens, b, b', scope, from, name, loc)
    ensures Over(before, a', b')
  {
    var c :| IsContext(tokens, from, c) && Defined(a, a', scope + c, 0, name, loc);
    var d :| IsContext(tokens, from, d) && Defined(b, b', scope + d, 0, name, loc);
    OneContext(tokens, from, c, d);
    DefinedOver(before, a, b, a', b', scope + c, name, loc);
  }

  lemma OneCallee(tokens: seq<Token>, i: int, x: int, y: int)
    requires IsCallee(tokens, i, x) && IsCallee(tokens, i, y)
    ensures x == y
  {
    if KindOf(tokens, i - 1) == Greater {
      if x != -1 && y != -1 {
        OnePartnerBefore(Kinds(tokens), x + 1, y + 1, i - 1);
      } else if x != -1 {
        assert IsTemplate(tokens, x + 1, i - 1);
      } else if y != -1 {
        assert IsTemplate(tokens, y + 1, i - 1);
      }
    }
  }

  // --- Two runs over the same tokens ---

  ghost predicate Alike(before: Entries, a: Machine, b: Machine) {
    SameControl(a, b) && Over(before, a.entries, b.entries)
  }

  lemma ContainerAlike(tokens: seq<Token>, fileId: FileId, i: nat, before: Entries, a: Machine, b: Machine,
                       a': Machine, b': Machine)
    requires Lexed(tokens) && i < |tokens| && Alike(before, a, b)
    requires Shape(tokens, a.stack, a.scope) && Shape(tokens, b.stack, b.scope) && Top(a.stack).kind == ContainerPending
    requires OpensContainer(tokens, fileId, i, a, a') && OpensContainer(tokens, fileId, i, b, b')
    ensures Alike(before, a', b')
  {
    var c := ContainerToken(tokens, Top(a.stack), i);
    if c != -1 && !IsKeyWord(tokens[c].spelling) {
      OpensOver(tokens, before, a.entries, b.entries, a'.entries, b'.entries, a.scope, c, tokens[c].spelling,
                Location(fileId, tokens[c].offset));
    }
  }

  lemma FunctionAlike(tokens: seq<Token>, fileId: FileId, before: Entries, a: Machine, b: Machine,
                      a': Machine, b': Machine)
    requires Lexed(tokens) && Alike(before, a, b)
    requires Shape(tokens, a.stack, a.scope) && Shape(tokens, b.stack, b.scope) && Top(a.stack).kind == FunctionPending
    requires OpensFunction(tokens, fileId, a, a') && OpensFunction(tokens, fileId, b, b')
    ensures Alike(before, a', b')
  {
    var f := Top(a.stack).pendingIndex;
    if !IsKeyWord(tokens[f].spelling) {
      OpensOver(tokens, before, a.entries, b.entries, a'.entries, b'.entries, a.scope,
                if KindOf(tokens, f - 1) == Tilde then f - 1 else f, FunctionName(tokens, f),
                FunctionPlace(tokens, fileId, f));
    }
  }

  lemma LeftBraceAlike(tokens: seq<Token>, fileId: FileId, i: nat, before: Entries, a: Machine, b: Machine,
                       a': Machine, b': Machine)
    requires Lexed(tokens) && i < |tokens| && Alike(before, a, b)
    requires Shape(tokens, a.stack, a.scope) && Shape(tokens, b.stack, b.scope)
    requires LeftBraceStep(tokens, fileId, i, a, a') && LeftBraceStep(tokens, fileId, i, b, b')
    ensures Alike(before, a', b')
  {
    var c, d := a'.(braceCount := a.braceCount), b'.(braceCount := b.braceCount);
    match Top(a.stack).kind {
      case ContainerPending => ContainerAlike(tokens, fileId, i, before, a, b, c, d);
      case FunctionPending => FunctionAlike(tokens, fileId, before, a, b, c, d);
      case _ =>
    }
  }

  lemma LeftParenAlike(tokens: seq<Token>, fileId: FileId, i: nat, before: Entries, a: Machine, b: Machine,
                       a': Machine, b': Machine)
    requires Lexed(tokens) && Alike(before, a, b) && a.stack != []
    requires LeftParenStep(tokens, fileId, i, a, a') && LeftParenStep(tokens, fileId, i, b, b')
    ensures Alike(before, a', b')
  {
    if Top(a.stack).kind == FunctionBody {
      var x: int :| x < |tokens| && IsCallee(tokens, i, x)
        && a' == a.(entries := Referred(tokens, fileId, x, a.entries));
      var y: int :| y < |tokens| && IsCallee(tokens, i, y)
        && b' == b.(entries := Referred(tokens, fileId, y, b.entries));
      OneCallee(tokens, i, x, y);
      if x >= 0 && !IsKeyWord(tokens[x].spelling) {
        PutOver(before, a.entries, b.entries, tokens[x].spelling, Location(fileId, tokens[x].offset));
      }
    }
  }

  lemma SameStart(a: seq<string>, b: seq<string>, end: string)
    ensures a + [end] == b + [end] ==> a == b
  {
    assert (a + [end])[..|a|] == a && (b + [end])[..|b|] == b;
  }

  lemma RightBraceAlike(before: Entries, a: Machine, b: Machine, a': Machine, b': Machine)
    requires Alike(before, a, b) && a.stack != [] && RightBraceStep(a, a') && RightBraceStep(b, b')
    ensures Alike(before, a', b')
  {
    SameStart(a'.scope, b'.scope, Top(a.stack).name);
  }

  lemma SemiAlike(tokens: seq<Token>, fileId: FileId, i: nat, before: Entries, a: Machine, b: Machine,
                  a': Machine, b': Machine)
    requires Lexed(tokens) && Alike(before, a, b)
    requires Shape(tokens, a.stack, a.scope) && Shape(tokens, b.stack, b.scope)
    requires SemiStep(tokens, fileId, i, a, a') && SemiStep(tokens, fileId, i, b, b')
    ensures Alike(before, a', b')
  {
    var top, last := Top(a.stack), KindOf(tokens, i - 1);
    if top.kind == FunctionPending && (last == Equal || last == RParen) {
      var f := top.pendingIndex;
      if !IsKeyWord(FunctionName(tokens, f)) {
        DefinedOver(before, a.entries, b.entries, a'.entries, b'.entries, a.scope, FunctionName(tokens, f),
                    FunctionPlace(tokens, fileId, f));
      }
    }
  }

  lemma StepAlike(tokens: seq<Token>, fileId: FileId, i: nat, before: Entries, a: Machine, b: Machine,
                  a': Machine, b': Machine)
    requires Lexed(tokens) && i < |tokens| && Alike(before, a, b)
    requires IsStep(tokens, fileId, i, a, a') && IsStep(tokens, fileId, i, b, b')
    ensures Alike(before, a', b')
  {
    match tokens[i].kind {
      case LBrace => LeftBraceAlike(tokens, fileId, i, before, a, b, a', b');
      case RBrace => RightBraceAlike(before, a, b, a', b');
      case LParen => LeftParenAlike(tokens, fileId, i, before, a, b, a', b');
      case Semi => SemiAlike(tokens, fileId, i, before, a, b, a', b');
      case _ =>
    }
  }

  lemma {:induction false} RunsAlike(tokens: seq<Token>, fileId: FileId, n: nat, before: Entries, own: seq<Machine>,
                                     all: seq<Machine>, i: nat)
    requires Lexed(tokens) && i <= n <= |tokens|
    requires IsRun(tokens, fileId, n, own) && IsRun(tokens, fileId, n, all) && Alike(before, own[0], all[0])
    ensures Alike(before, own[i], all[i])
  {
    if i > 0 {
      RunsAlike(tokens, fileId, n, before, own, all, i - 1);
      StepAlike(tokens, fileId, i - 1, before, own[i - 1], all[i - 1], own[i], all[i]);
    }
  }

  // --- The parse of a file ---

  function StartWith(entries: Entries): Machine {
    Machine([Plain(Global)], [], 0, entries)
  }

  ghost predicate IsParse(tokens: seq<Token>, fileId: FileId, from: Entries, to: Entries, run: seq<Machine>)
    requires Lexed(tokens)
  {
    IsRun(tokens, fileId, |tokens|, run) && run[0] == StartWith(from) && run[|tokens|].entries == to
  }

  /** A run of the parser over a whole file, from these entries to those. */
  ghost predicate Parses(tokens: seq<Token>, fileId: FileId, from: Entries, to: Entries)
    requires Lexed(tokens)
  {
    exists run: seq<Machine> :: IsParse(tokens, fileId, from, to, run)
  }

  function ValueAt(m: Entries, n: string): map<Location, bool> {
    if n in m then m[n] else map[]
  }

  function Merged(a: Entries, b: Entries): Entries {
    map n | n in a.Keys + b.Keys :: ValueAt(a, n) + ValueAt(b, n)
  }

  lemma AtIsInValue(m: Entries, n: string, l: Location)
    ensures At(m, n, l) == if l in ValueAt(m, n) then Some(ValueAt(m, n)[l]) else None
  {
  }

  lemma OverValue(before: Entries, own: Entries, all: Entries, n: string)
    requires Over(before, own, all)
    ensures ValueAt(all, n) == ValueAt(before, n) + ValueAt(own, n)
  {
    forall l
      ensures l in ValueAt(all, n) <==> l in ValueAt(before, n) || l in ValueAt(own, n)
      ensures l in ValueAt(all, n) ==>
        ValueAt(all, n)[l] == if l in ValueAt(own, n) then ValueAt(own, n)[l] else ValueAt(before, n)[l]
    {
      AtIsInValue(all, n, l);
      AtIsInValue(before, n, l);
      AtIsInValue(own, n, l);
    }
  }

  lemma OverIsMerged(before: Entries, own: Entries, all: Entries)
    requires Over(before, own, all) && NoneEmpty(before) && NoneEmpty(own) && NoneEmpty(all)
    ensures all == Merged(before, own)
  {
    forall n
      ensures n in all <==> n in before.Keys + own.Keys
      ensures ValueAt(all, n) == ValueAt(before, n) + ValueAt(own, n)
    {
      OverValue(before, own, all, n);
      EmptySum(ValueAt(before, n), ValueAt(own, n));
    }
  }

  lemma EmptySum(a: map<Location, bool>, b: map<Location, bool>)
    ensures a + b == map[] <==> a == map[] && b == map[]
  {
    assert (a + b).Keys == a.Keys + b.Keys;
  }

  /** Parsing a file into the symbols found so far adds what parsing it on its own finds. */
  lemma ParsesInto(tokens: seq<Token>, fileId: FileId, before: Entries, own: Entries, all: Entries)
    requires Lexed(tokens) && Parses(tokens, fileId, map[], own) && Parses(tokens, fileId, before, all)
    requires NoneEmpty(before) && NoneEmpty(own) && NoneEmpty(all)
    ensures all == Merged(before, own)
  {
    var a :| IsParse(tokens, fileId, map[], own, a);
    var b :| IsParse(tokens, fileId, before, all, b);
    RunsAlike(tokens, fileId, |tokens|, before, a, b, |tokens|);
    OverIsMerged(before, own, all);
  }

  /** So there is only one thing that parsing a file on its own finds. */
  lemma OneParse(tokens: seq<Token>, fileId: FileId, a: Entries, b: Entries)
    requires Lexed(tokens) && Parses(tokens, fileId, map[], a) && Parses(tokens, fileId, map[], b)
    requires NoneEmpty(a) && NoneEmpty(b)
    ensures a == b
  {
    ParsesInto(tokens, fileId, map[], a, b);
    forall n ensures ValueAt(map[], n) + ValueAt(a, n) == ValueAt(a, n) {
    }
    assert Merged(map[], a) == a;
  }

  /** parse() of one file, into the symbols found so far. */
  method ParseFile(tokens: seq<Token>, fileId: FileId, before: Entries) returns (all: Entries, ghost run: seq<Machine>)
    requires Lexed(tokens) && NoneEmpty(before)
    ensures NoneEmpty(all) && Parses(tokens, fileId, before, all) && Sound(tokens, fileId, before, all)
    ensures IsParse(tokens, fileId, before, all, run)
  {
    var parser := new Parser(tokens, fileId, before);
    var count, steps := parser.Parse();
    run, all := steps, parser.entries;
    assert IsParse(tokens, fileId, before, all, run);
  }
}
