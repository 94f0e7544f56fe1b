/** The parser that finds definitions and references without a compiler (src/GRParser.cpp): a
    machine with a stack of states, fed with the tokens of one file. */
module GRParser {
  import opened Locations
  import opened Matching
  import opened Options

  datatype Token = Token(kind: Kind, offset: int, spelling: string)

  type Entries = map<string, map<Location, bool>>

  // --- What is recorded ---

  function At(entries: Entries, name: string, loc: Location): Option<bool> {
    if name in entries && loc in entries[name] then Some(entries[name][loc]) else None
  }

  predicate NoneEmpty(symbols: Entries) {
    forall n :: n in symbols ==> symbols[n] != map[]
  }

  function Put(entries: Entries, name: string, loc: Location, reference: bool): (r: Entries)
    ensures forall n, l :: At(r, n, l) == if n == name && l == loc then Some(reference) else At(entries, n, l)
    ensures NoneEmpty(entries) ==> NoneEmpty(r)
  {
    assert loc in (if name in entries then entries[name] else map[])[loc := reference];
    entries[name := (if name in entries then entries[name] else map[])[loc := reference]]
  }

  /** The name, qualified by the scopes from the i-th on. */
  function Qualified(scope: seq<string>, i: nat, name: string): string
    requires i <= |scope|
    decreases |scope| - i
  {
    if i == |scope| then name else scope[i] + ("::" + Qualified(scope, i + 1, name))
  }

  ghost predicate QualifiesFrom(scope: seq<string>, from: nat, name: string, n: string) {
    exists i :: from <= i <= |scope| && n == Qualified(scope, i, name)
  }

  /** The definition was recorded under its name and under every qualification of it by an end
      of the scope, and nothing else has changed. */
  ghost predicate Defined(before: Entries, after: Entries, scope: seq<string>, from: nat, name: string, loc: Location) {
    forall n, l :: At(after, n, l) ==
      if l == loc && QualifiesFrom(scope, from, name, n) then Some(false) else At(before, n, l)
  }

  lemma QualifiesNext(scope: seq<string>, i: nat, name: string, n: string)
    requires i < |scope|
    ensures QualifiesFrom(scope, i, name, n) <==> QualifiesFrom(scope, i + 1, name, n) || n == Qualified(scope, i, name)
  {
  }

  /** addEntry */
  method AddEntry(entries: Entries, scope: seq<string>, name: string, loc: Location) returns (r: Entries)
    ensures Defined(entries, r, scope, 0, name, loc) && (NoneEmpty(entries) ==> NoneEmpty(r))
  {
    r := Put(entries, name, loc, false);
    var entry, i := name, |scope|;
    assert forall n :: QualifiesFrom(scope, i, name, n) <==> n == Qualified(scope, i, name);
    while i > 0
      invariant 0 <= i <= |scope| && entry == Qualified(scope, i, name)
      invariant Defined(entries, r, scope, i, name, loc) && (NoneEmpty(entries) ==> NoneEmpty(r))
    {
      i := i - 1;
      entry := scope[i] + ("::" + entry);
      forall n {
        QualifiesNext(scope, i, name, n);
      }
      r := Put(r, entry, loc, false);
    }
  }

  // --- The stack ---

  datatype StateType = Global | FunctionBody | ContainerPending | FunctionPending | Container

  /** pendingIndex is the token a pending state is about; name is that of a container. */
  datatype State = State(kind: StateType, braceIndex: int, name: string, pendingIndex: int)

  function Plain(kind: StateType): State {
    State(kind, -1, "", -1)
  }

  predicate Pending(s: State) {
    s.kind == ContainerPending || s.kind == FunctionPending
  }

  /** The names of the containers among the first n states. */
  function Names(stack: seq<State>, n: nat): seq<string>
    requires n <= |stack|
  {
    if n == 0 then []
    else Names(stack, n - 1) + if stack[n - 1].kind == Container then [stack[n - 1].name] else []
  }

  predicate IsIdentifier(tokens: seq<Token>, i: int) {
    0 <= i < |tokens| && tokens[i].kind == Identifier
  }

  /** A state that may stand above the first one. */
  predicate StateHolds(tokens: seq<Token>, s: State) {
    && s.kind != Global
    && (Pending(s) <==> s.braceIndex == -1) && s.braceIndex >= -1
    && (s.kind == ContainerPending ==> s.pendingIndex == -1 || IsIdentifier(tokens, s.pendingIndex))
    && (s.kind == FunctionPending ==> IsIdentifier(tokens, s.pendingIndex))
    && (s.kind == Container ==> s.name != "")
  }

  /** The stack is the global state, then containers and function bodies, then at most one
      pending state; and the scope holds the names of the containers, in order. */
  predicate Shape(tokens: seq<Token>, stack: seq<State>, scope: seq<string>) {
    && stack != [] && stack[0] == Plain(Global)
    && (forall i :: 0 < i < |stack| ==> StateHolds(tokens, stack[i]))
    && (forall i :: 0 < i < |stack| - 1 ==> !Pending(stack[i]))
    && scope == Names(stack, |stack|)
  }

  function Top(stack: seq<State>): State
    requires stack != []
  {
    stack[|stack| - 1]
  }

  lemma {:induction false} NamesOfStart(a: seq<State>, b: seq<State>, n: nat)
    requires n <= |a| && n <= |b| && a[..n] == b[..n]
    ensures Names(a, n) == Names(b, n)
  {
    if n > 0 {
      assert a[..n - 1] == a[..n][..n - 1] && b[..n - 1] == b[..n][..n - 1];
      assert a[n - 1] == a[..n][n - 1] && b[n - 1] == b[..n][n - 1];
      NamesOfStart(a, b, n - 1);
    }
  }

  lemma PushKeepsShape(tokens: seq<Token>, stack: seq<State>, scope: seq<string>, s: State)
    requires Shape(tokens, stack, scope) && !Pending(Top(stack)) && StateHolds(tokens, s)
    ensures Shape(tokens, stack + [s], if s.kind == Container then scope + [s.name] else scope)
  {
    NamesOfStart(stack, stack + [s], |stack|);
  }

  lemma PopKeepsShape(tokens: seq<Token>, stack: seq<State>, scope: seq<string>)
    requires Shape(tokens, stack, scope) && Top(stack).kind != Global
    ensures |stack| > 1 && !Pending(Top(stack[..|stack| - 1]))
    ensures Top(stack).kind == Container ==> |scope| > 0
    ensures Shape(tokens, stack[..|stack| - 1], if Top(stack).kind == Container then scope[..|scope| - 1] else scope)
  {
    NamesOfStart(stack, stack[..|stack| - 1], |stack| - 1);
  }

  // --- Tokens ---

  predicate IsKeyWord(s: string) {
    s in {"if", "do", "for", "new", "void", "case", "while", "switch", "return", "delete", "operator",
          "const_cast", "static_cast", "dynamic_cast", "reinterpret_cast"}
  }

  predicate OpensContext(s: string) {
    s in {"class", "union", "struct", "namespace"}
  }

  /** What a lexer gives: kept tokens one after the other, none of them empty. */
  predicate Lexed(tokens: seq<Token>) {
    && (forall i :: 0 <= i < |tokens| ==>
          tokens[i].kind != NoToken && tokens[i].spelling != "" && 0 <= tokens[i].offset < 0x8000_0000)
    && (forall i, j :: 0 <= i < j < |tokens| ==> tokens[i].offset < tokens[j].offset)
  }

  predicate EndsWith(s: string, end: string) {
    |s| >= |end| && s[|s| - |end|..] == end
  }

  /** The place of an identifier or, for a destructor, of the char before it. */
  predicate PlaceOf(tokens: seq<Token>, offset: int, i: nat)
    requires i < |tokens|
  {
    offset == tokens[i].offset || (offset == tokens[i].offset - 1 && i > 0 && tokens[i - 1].kind == Tilde)
  }

  /** An entry stands for an identifier of the file: a reference is named by it, the name of a
      definition ends with it. */
  predicate StandsFor(tokens: seq<Token>, name: string, offset: int, reference: bool, i: int) {
    && IsIdentifier(tokens, i)
    && (if reference then name == tokens[i].spelling && offset == tokens[i].offset && !IsKeyWord(name)
        else EndsWith(name, tokens[i].spelling) && PlaceOf(tokens, offset, i))
  }

  ghost predicate Stands(tokens: seq<Token>, fileId: FileId, name: string, loc: Location, reference: bool) {
    loc.fileId == fileId && exists i :: StandsFor(tokens, name, loc.offset, reference, i)
  }

  /** Whatever the parser has recorded stands for an identifier. */
  ghost predicate Sound(tokens: seq<Token>, fileId: FileId, before: Entries, after: Entries) {
    forall n, l :: At(after, n, l) != At(before, n, l) ==>
      At(after, n, l).Some? && Stands(tokens, fileId, n, l, At(after, n, l).value)
  }

  lemma {:induction false} QualifiedEndsWith(scope: seq<string>, i: nat, name: string, end: string)
    requires i <= |scope| && EndsWith(name, end)
    ensures EndsWith(Qualified(scope, i, name), end)
    decreases |scope| - i
  {
    if i < |scope| {
      QualifiedEndsWith(scope, i + 1, name, end);
      var q := Qualified(scope, i + 1, name);
      var r := scope[i] + ("::" + q);
      assert r[|r| - |q|..] == q;
      assert r[|r| - |end|..] == q[|q| - |end|..];
    }
  }

  /** Recording a definition of an identifier is sound. */
  lemma DefinitionIsSound(tokens: seq<Token>, fileId: FileId, start: Entries, before: Entries, after: Entries,
                          scope: seq<string>, name: string, loc: Location, i: nat)
    requires Sound(tokens, fileId, start, before) && Defined(before, after, scope, 0, name, loc)
    requires StandsFor(tokens, name, loc.offset, false, i) && loc.fileId == fileId
    ensures Sound(tokens, fileId, start, after)
  {
    forall n, l | At(after, n, l) != At(start, n, l)
      ensures At(after, n, l).Some? && Stands(tokens, fileId, n, l, At(after, n, l).value)
    {
      if l == loc && QualifiesFrom(scope, 0, name, n) {
        var k :| 0 <= k <= |scope| && n == Qualified(scope, k, name);
        QualifiedEndsWith(scope, k, name, tokens[i].spelling);
        assert StandsFor(tokens, n, l.offset, false, i);
      }
    }
  }

  lemma ReferenceIsSound(tokens: seq<Token>, fileId: FileId, start: Entries, before: Entries, name: string,
                         loc: Location, i: nat)
    requires Sound(tokens, fileId, start, before)
    requires StandsFor(tokens, name, loc.offset, true, i) && loc.fileId == fileId
    ensures Sound(tokens, fileId, start, Put(before, name, loc, true))
  {
  }

  function KindOf(tokens: seq<Token>, i: int): Kind {
    if 0 <= i < |tokens| then tokens[i].kind else NoToken
  }

  predicate Qualifies(tokens: seq<Token>, i: int) {
    i >= 2 && KindOf(tokens, i - 1) == ColonColon && KindOf(tokens, i - 2) == Identifier
  }

  /** From the i-th token on there are n times an identifier and two colons. */
  predicate IsChain(tokens: seq<Token>, i: int, n: nat)
    decreases n
  {
    n == 0
    || (IsIdentifier(tokens, i) && i + 1 < |tokens| && tokens[i + 1].kind == ColonColon
        && IsChain(tokens, i + 2, n - 1))
  }

  /** These identifiers. */
  function Context(tokens: seq<Token>, i: int, n: nat): (names: seq<string>)
    ensures |names| == n
    decreases n
  {
    if n == 0 then [] else [if 0 <= i < |tokens| then tokens[i].spelling else ""] + Context(tokens, i + 2, n - 1)
  }

  // --- What one token does ---

  datatype Machine = Machine(stack: seq<State>, scope: seq<string>, braceCount: int, entries: Entries)

  function Popped(stack: seq<State>): seq<State>
    requires stack != []
  {
    stack[..|stack| - 1]
  }

  /** All the names before a token that qualify it. */
  predicate IsContext(tokens: seq<Token>, from: int, context: seq<string>) {
    var n := |context|;
    && 2 * n <= from && IsChain(tokens, from - 2 * n, n) && !Qualifies(tokens, from - 2 * n)
    && context == Context(tokens, from - 2 * n, n)
  }

  /** The name of the function at a token: with its tilde if it is a destructor. */
  function FunctionName(tokens: seq<Token>, i: nat): string
    requires i < |tokens|
  {
    if KindOf(tokens, i - 1) == Tilde then "~" + tokens[i].spelling else tokens[i].spelling
  }

  function FunctionPlace(tokens: seq<Token>, fileId: FileId, i: nat): Location
    requires i < |tokens| && Lexed(tokens)
  {
    assert i > 0 ==> tokens[i - 1].offset < tokens[i].offset;
    Location(fileId, if KindOf(tokens, i - 1) == Tilde then tokens[i].offset - 1 else tokens[i].offset)
  }

  /** A definition that opens a brace: recorded within the scope and the names that qualify it. */
  ghost predicate OpensWith(tokens: seq<Token>, before: Entries, after: Entries, scope: seq<string>,
                            from: int, name: string, loc: Location) {
    exists context :: IsContext(tokens, from, context) && Defined(before, after, scope + context, 0, name, loc)
  }

  /** The token a container is named by: that before its colon or its brace, if any. */
  function ContainerToken(tokens: seq<Token>, top: State, i: nat): int {
    if top.pendingIndex == -1 && KindOf(tokens, i - 1) == Identifier then i - 1 else top.pendingIndex
  }

  ghost predicate OpensContainer(tokens: seq<Token>, fileId: FileId, i: nat, a: Machine, b: Machine)
    requires Lexed(tokens) && i < |tokens| && Shape(tokens, a.stack, a.scope) && Top(a.stack).kind == ContainerPending
  {
    var c := ContainerToken(tokens, Top(a.stack), i);
    && b.braceCount == a.braceCount
    && if c == -1 || IsKeyWord(tokens[c].spelling) then
      b.stack == Popped(a.stack) && b.scope == a.scope && b.entries == a.entries
    else
      var name := tokens[c].spelling;
      && b.stack == Popped(a.stack) + [State(Container, a.braceCount, name, -1)] && b.scope == a.scope + [name]
      && OpensWith(tokens, a.entries, b.entries, a.scope, c, name, Location(fileId, tokens[c].offset))
  }

  ghost predicate OpensFunction(tokens: seq<Token>, fileId: FileId, a: Machine, b: Machine)
    requires Lexed(tokens) && Shape(tokens, a.stack, a.scope) && Top(a.stack).kind == FunctionPending
  {
    var f := Top(a.stack).pendingIndex;
    && b.stack == Popped(a.stack) + [State(FunctionBody, a.braceCount, "", -1)]
    && b.scope == a.scope && b.braceCount == a.braceCount
    && (if IsKeyWord(tokens[f].spelling) then b.entries == a.entries
        else OpensWith(tokens, a.entries, b.entries, a.scope, if KindOf(tokens, f - 1) == Tilde then f - 1 else f,
                       FunctionName(tokens, f), FunctionPlace(tokens, fileId, f)))
  }

  ghost predicate LeftBraceStep(tokens: seq<Token>, fileId: FileId, i: nat, a: Machine, b: Machine)
    requires Lexed(tokens) && i < |tokens| && Shape(tokens, a.stack, a.scope)
  {
    b.braceCount == a.braceCount + 1 &&
    var c := b.(braceCount := a.braceCount);
    match Top(a.stack).kind
    case ContainerPending => OpensContainer(tokens, fileId, i, a, c)
    case FunctionPending => OpensFunction(tokens, fileId, a, c)
    case _ => c == a
  }

  predicate IdentifierStep(tokens: seq<Token>, i: nat, a: Machine, b: Machine)
    requires i < |tokens| && a.stack != []
  {
    var before := KindOf(tokens, i - 1);
    b == if !Pending(Top(a.stack)) && before != Comma && before != Less && OpensContext(tokens[i].spelling)
         then a.(stack := a.stack + [Plain(ContainerPending)]) else a
  }

  predicate ColonStep(tokens: seq<Token>, i: nat, a: Machine, b: Machine)
    requires a.stack != []
  {
    var top := Top(a.stack);
    b == if top.kind == ContainerPending && top.pendingIndex == -1 && KindOf(tokens, i - 1) == Identifier
         then a.(stack := Popped(a.stack) + [top.(pendingIndex := i - 1)]) else a
  }

  /** From start to end there are arguments of a template that has a name. */
  ghost predicate IsTemplate(tokens: seq<Token>, start: int, end: int) {
    Partners(Kinds(tokens), start, end) && KindOf(tokens, start - 1) == Identifier
  }

  ghost predicate NoTemplateEnds(tokens: seq<Token>, end: int) {
    forall start :: !IsTemplate(tokens, start, end)
  }

  /** The identifier a call at a parenthesis names: the token before it or, for a template, before
      its arguments; -1 if there is none. */
  ghost predicate IsCallee(tokens: seq<Token>, i: int, idx: int) {
    match KindOf(tokens, i - 1)
    case Identifier => idx == i - 1
    case Greater =>
      if idx == -1 then NoTemplateEnds(tokens, i - 1)
      else IsIdentifier(tokens, idx) && Partners(Kinds(tokens), idx + 1, i - 1)
    case _ => idx == -1
  }

  lemma NoTemplateHere(tokens: seq<Token>, partner: int, end: int)
    requires Partners(Kinds(tokens), partner, end) || forall start :: !Partners(Kinds(tokens), start, end)
    requires KindOf(tokens, partner - 1) != Identifier
    ensures NoTemplateEnds(tokens, end)
  {
    forall start ensures !IsTemplate(tokens, start, end) {
      if Partners(Kinds(tokens), start, end) {
        OnePartnerBefore(Kinds(tokens), start, partner, end);
      }
    }
  }

  function Referred(tokens: seq<Token>, fileId: FileId, idx: int, e: Entries): Entries
    requires Lexed(tokens) && idx < |tokens|
  {
    if idx < 0 || IsKeyWord(tokens[idx].spelling) then e
    else Put(e, tokens[idx].spelling, Location(fileId, tokens[idx].offset), true)
  }

  ghost predicate LeftParenStep(tokens: seq<Token>, fileId: FileId, i: nat, a: Machine, b: Machine)
    requires Lexed(tokens) && a.stack != []
  {
    match Top(a.stack).kind
    case FunctionBody =>
      exists idx: int :: idx < |tokens| && IsCallee(tokens, i, idx)
        && b == a.(entries := Referred(tokens, fileId, idx, a.entries))
    case ContainerPending => b == a
    case FunctionPending => b == a
    case _ =>
      b == if KindOf(tokens, i - 1) == Identifier
           then a.(stack := a.stack + [State(FunctionPending, -1, "", i - 1)]) else a
  }

  predicate RightBraceStep(a: Machine, b: Machine)
    requires a.stack != []
  {
    var count := if a.braceCount > 0 then a.braceCount - 1 else a.braceCount;
    var c := a.(braceCount := count);
    if Top(a.stack).braceIndex != count then b == c
    else b == c.(stack := Popped(a.stack), scope := b.scope)
         && (if Top(a.stack).kind == Container then b.scope + [Top(a.stack).name] == a.scope else b.scope == a.scope)
  }

  ghost predicate Declares(tokens: seq<Token>, fileId: FileId, scope: seq<string>, f: int, before: Entries,
                           after: Entries)
    requires Lexed(tokens) && IsIdentifier(tokens, f)
  {
    if IsKeyWord(FunctionName(tokens, f)) then after == before
    else Defined(before, after, scope, 0, FunctionName(tokens, f), FunctionPlace(tokens, fileId, f))
  }

  ghost predicate SemiStep(tokens: seq<Token>, fileId: FileId, i: nat, a: Machine, b: Machine)
    requires Lexed(tokens) && Shape(tokens, a.stack, a.scope)
  {
    var top, before := Top(a.stack), KindOf(tokens, i - 1);
    if top.kind == FunctionPending && (before == Equal || before == RParen) then
      && b.stack == Popped(a.stack) && b.scope == a.scope && b.braceCount == a.braceCount
      && Declares(tokens, fileId, a.scope, top.pendingIndex, a.entries, b.entries)
    else b == if Pending(top) then a.(stack := Popped(a.stack)) else a
  }

  /** What the i-th token makes of the machine. */
  ghost predicate IsStep(tokens: seq<Token>, fileId: FileId, i: nat, a: Machine, b: Machine)
    requires Lexed(tokens) && i < |tokens|
  {
    Shape(tokens, a.stack, a.scope) && match tokens[i].kind
    case Identifier => IdentifierStep(tokens, i, a, b)
    case LBrace => LeftBraceStep(tokens, fileId, i, a, b)
    case Colon => ColonStep(tokens, i, a, b)
    case RBrace => RightBraceStep(a, b)
    case LParen => LeftParenStep(tokens, fileId, i, a, b)
    case Semi => SemiStep(tokens, fileId, i, a, b)
    case _ => b == a
  }

  /** A run of the machine over the first n tokens. */
  ghost predicate IsRun(tokens: seq<Token>, fileId: FileId, n: nat, run: seq<Machine>)
    requires Lexed(tokens) && n <= |tokens|
  {
    |run| == n + 1 && forall i :: 0 <= i < n ==> IsStep(tokens, fileId, i, run[i], run[i + 1])
  }

  // --- The parser ---

  class Parser {
    const tokens: seq<Token>
    const fileId: FileId
    ghost const start: Entries
    var stack: seq<State>
    var scope: seq<string>
    var braceCount: int
    var count: nat
    var current: int
    var entries: Entries

    ghost function Now(): Machine
      reads this
    {
      Machine(stack, scope, braceCount, entries)
    }

    ghost predicate Valid()
      reads this
    {
      Recording() && Shape(tokens, stack, scope) && braceCount >= 0
    }

    ghost predicate Recording()
      reads this
    {
      Lexed(tokens) && Sound(tokens, fileId, start, entries) && (NoneEmpty(start) ==> NoneEmpty(entries))
    }

    constructor (tokens: seq<Token>, fileId: FileId, entries: Entries)
      requires Lexed(tokens)
      ensures Valid() && this.tokens == tokens && this.fileId == fileId && start == this.entries == entries
      ensures current == 0 && count == 0 && stack == [Plain(Global)] && scope == [] && braceCount == 0
    {
      this.tokens, this.fileId, this.start, this.entries := tokens, fileId, entries, entries;
      stack, scope, braceCount, count, current := [Plain(Global)], [], 0, 0, 0;
    }

    method Push(s: State)
      requires Shape(tokens, stack, scope) && !Pending(Top(stack)) && StateHolds(tokens, s)
      modifies `stack, `scope
      ensures Shape(tokens, stack, scope) && stack == old(stack) + [s]
      ensures scope == if s.kind == Container then old(scope) + [s.name] else old(scope)
    {
      PushKeepsShape(tokens, stack, scope, s);
      stack := stack + [s];
      if s.kind == Container {
        scope := scope + [s.name];
      }
    }

    method Pop()
      requires Shape(tokens, stack, scope) && Top(stack).kind != Global
      modifies `stack, `scope
      ensures Shape(tokens, stack, scope) && stack == old(stack)[..|old(stack)| - 1] && !Pending(Top(stack))
      ensures if Top(old(stack)).kind == Container then scope + [Top(old(stack)).name] == old(scope)
              else scope == old(scope)
    {
      PopKeepsShape(tokens, stack, scope);
      NamesOfStart(stack, stack[..|stack| - 1], |stack| - 1);
      if Top(stack).kind == Container {
        // the assertion of the source
        assert Top(stack).name != "";
        scope := scope[..|scope| - 1];
      }
      stack := stack[..|stack| - 1];
    }

    method PopPending()
      requires Shape(tokens, stack, scope) && Pending(Top(stack))
      modifies `stack, `scope
      ensures Shape(tokens, stack, scope) && !Pending(Top(stack))
      ensures stack == Popped(old(stack)) && scope == old(scope)
    {
      Pop();
    }

    /** Pops a pending state and pushes another. */
    method Replace(s: State)
      requires Shape(tokens, stack, scope) && Pending(Top(stack)) && StateHolds(tokens, s) && s.kind != Container
      modifies `stack, `scope
      ensures Shape(tokens, stack, scope) && stack == Popped(old(stack)) + [s] && scope == old(scope)
    {
      PopPending();
      Push(s);
    }

    /** Where the names that qualify a token begin. */
    method ContextStart(idx: int) returns (i: int)
      requires 0 <= idx < |tokens|
      ensures 0 <= i <= idx && (idx - i) % 2 == 0 && !Qualifies(tokens, i)
      ensures IsChain(tokens, i, (idx - i) / 2)
    {
      i := idx;
      while Qualifies(tokens, i)
        invariant 0 <= i <= idx && (idx - i) % 2 == 0 && IsChain(tokens, i, (idx - i) / 2)
        decreases i
      {
        i := i - 2;
      }
    }

    /** addContext: appends to the scope the names that qualify the token, A and B for c in
        A::B::c, and says how many these are. */
    method AddContext(idx: int) returns (added: nat)
      requires 0 <= idx < |tokens|
      modifies `scope
      ensures 2 * added <= idx && IsChain(tokens, idx - 2 * added, added) && !Qualifies(tokens, idx - 2 * added)
      ensures scope == old(scope) + Context(tokens, idx - 2 * added, added)
    {
      var i := ContextStart(idx);
      added := (idx - i) / 2;
      ghost var all, left := Context(tokens, i, added), added;
      while i < idx
        invariant 0 <= i <= idx && idx - i == 2 * left
        invariant scope + Context(tokens, i, left) == old(scope) + all
      {
        ghost var rest := Context(tokens, i + 2, left - 1);
        assert scope + ([tokens[i].spelling] + rest) == (scope + [tokens[i].spelling]) + rest;
        scope := scope + [tokens[i].spelling];
        i := i + 2;
        left := left - 1;
      }
    }

    /** Records a definition within the scope and the names that qualify the token at from; the
        scope is left as it was. */
    method Define(name: string, offset: int, i: nat, from: nat) returns (ghost context: seq<string>)
      requires Recording() && StandsFor(tokens, name, offset, false, i) && from < |tokens|
      modifies `entries, `scope, `count
      ensures Recording() && scope == old(scope) && count == old(count) + 1
      ensures 0 <= offset < 0x8000_0000
      ensures Defined(old(entries), entries, old(scope) + context, 0, name, Location(fileId, offset))
      ensures IsContext(tokens, from, context)
    {
      var added := AddContext(from);
      context := Context(tokens, from - 2 * added, added);
      var loc := Location(fileId, offset);
      var after := AddEntry(entries, scope, name, loc);
      DefinitionIsSound(tokens, fileId, start, entries, after, scope, name, loc, i);
      entries := after;
      count := count + 1;
      assert scope[..|scope| - added] == old(scope);
      scope := scope[..|scope| - added];
    }

    method HandleRawIdentifier()
      requires Valid() && IsIdentifier(tokens, current)
      modifies `stack, `scope
      ensures Valid() && IdentifierStep(tokens, current, old(Now()), Now())
    {
      if !Pending(Top(stack)) && KindOf(tokens, current - 1) != Comma && KindOf(tokens, current - 1) != Less {
        if OpensContext(tokens[current].spelling) {
          Push(Plain(ContainerPending));
        }
      }
    }

    method DefineContainer(i: nat)
      requires Recording() && IsIdentifier(tokens, i)
      modifies `scope, `entries, `count
      ensures Recording() && scope == old(scope)
      ensures OpensWith(tokens, old(entries), entries, scope, i, tokens[i].spelling, Location(fileId, tokens[i].offset))
    {
      var name := tokens[i].spelling;
      assert name[0..] == name;
      var _ := Define(name, tokens[i].offset, i, i);
    }

    method EnterContainer(i: nat)
      requires Valid() && !Pending(Top(stack)) && IsIdentifier(tokens, i)
      modifies `stack, `scope, `entries, `count
      ensures Valid()
      ensures stack == old(stack) + [State(Container, braceCount, tokens[i].spelling, -1)]
      ensures scope == old(scope) + [tokens[i].spelling]
      ensures OpensWith(tokens, old(entries), entries, old(scope), i, tokens[i].spelling,
                        Location(fileId, tokens[i].offset))
    {
      DefineContainer(i);
      Push(State(Container, braceCount, tokens[i].spelling, -1));
    }

    method OpenContainer()
      requires Valid() && Top(stack).kind == ContainerPending && 0 <= current < |tokens|
      modifies `stack, `scope, `entries, `count
      ensures Valid()
      ensures var c := ContainerToken(tokens, Top(old(stack)), current);
        if c == -1 || IsKeyWord(tokens[c].spelling) then
          stack == Popped(old(stack)) && scope == old(scope) && entries == old(entries)
        else
          && stack == Popped(old(stack)) + [State(Container, braceCount, tokens[c].spelling, -1)]
          && scope == old(scope) + [tokens[c].spelling]
          && OpensWith(tokens, old(entries), entries, old(scope), c, tokens[c].spelling,
                       Location(fileId, tokens[c].offset))
    {
      var container := Top(stack).pendingIndex;
      if container == -1 && KindOf(tokens, current - 1) == Identifier {
        container := current - 1;
      }
      PopPending();
      if container != -1 {
        if !IsKeyWord(tokens[container].spelling) {
          EnterContainer(container);
        }
      }
    }

    /** A function is recorded within the scope and the names that qualify it, a destructor with
        its tilde. */
    method DefineFunction(i: nat)
      requires Recording() && IsIdentifier(tokens, i)
      modifies `scope, `entries, `count
      ensures Recording() && scope == old(scope)
      ensures if IsKeyWord(tokens[i].spelling) then entries == old(entries)
              else OpensWith(tokens, old(entries), entries, scope, if KindOf(tokens, i - 1) == Tilde then i - 1 else i,
                             FunctionName(tokens, i), FunctionPlace(tokens, fileId, i))
    {
      var name, offset := tokens[i].spelling, tokens[i].offset;
      if !IsKeyWord(name) {
        if KindOf(tokens, i - 1) == Tilde {
          assert ("~" + name)[1..] == name;
          var _ := Define("~" + name, offset - 1, i, i - 1);
        } else {
          assert name[0..] == name;
          var _ := Define(name, offset, i, i);
        }
      }
    }

    method OpenFunction()
      requires Valid() && Top(stack).kind == FunctionPending
      modifies `stack, `scope, `entries, `count
      ensures Valid() && OpensFunction(tokens, fileId, old(Now()), Now())
    {
      DefineFunction(Top(stack).pendingIndex);
      Replace(State(FunctionBody, braceCount, "", -1));
    }

    method HandleLeftBrace()
      requires Valid() && 0 <= current < |tokens|
      modifies `stack, `scope, `entries, `count, `braceCount
      ensures Valid() && LeftBraceStep(tokens, fileId, current, old(Now()), Now())
    {
      if Top(stack).kind == ContainerPending {
        OpenContainer();
      } else if Top(stack).kind == FunctionPending {
        OpenFunction();
      }
      braceCount := braceCount + 1;
    }

    method HandleColon()
      requires Valid() && 0 <= current < |tokens|
      modifies `stack
      ensures Valid() && ColonStep(tokens, current, old(Now()), Now())
    {
      var top := Top(stack);
      if top.kind == ContainerPending && top.pendingIndex == -1 && KindOf(tokens, current - 1) == Identifier {
        var n := |stack| - 1;
        var stack' := stack[..n] + [top.(pendingIndex := current - 1)];
        NamesOfStart(stack, stack', n);
        stack := stack';
      }
    }

    method Refer(i: nat)
      requires Recording() && IsIdentifier(tokens, i)
      modifies `entries, `count
      ensures Recording()
      ensures entries == Referred(tokens, fileId, i, old(entries))
    {
      var name := tokens[i].spelling;
      if !IsKeyWord(name) {
        var loc := Location(fileId, tokens[i].offset);
        ReferenceIsSound(tokens, fileId, start, entries, name, loc, i);
        entries := Put(entries, name, loc, true);
        count := count + 1;
      }
    }

    method Callee() returns (idx: int)
      requires Lexed(tokens) && 0 <= current < |tokens|
      ensures idx == -1 || IsIdentifier(tokens, idx)
      ensures IsCallee(tokens, current, idx)
    {
      idx := -1;
      if KindOf(tokens, current - 1) == Identifier {
        idx := current - 1;
      } else if KindOf(tokens, current - 1) == Greater {
        idx := FindMatching(Kinds(tokens), current - 1);
        ghost var partner := idx;
        if KindOf(tokens, idx - 1) == Identifier {
          idx := idx - 1;
        } else {
          idx := -1;
          NoTemplateHere(tokens, partner, current - 1);
        }
      }
    }

    method HandleLeftParen()
      requires Valid() && 0 <= current < |tokens|
      modifies `stack, `scope, `entries, `count
      ensures Valid() && LeftParenStep(tokens, fileId, current, old(Now()), Now())
    {
      if Top(stack).kind == FunctionBody {
        var idx := Callee();
        if idx != -1 {
          Refer(idx);
        }
      } else if Top(stack).kind == Container || Top(stack).kind == Global {
        if KindOf(tokens, current - 1) == Identifier {
          Push(State(FunctionPending, -1, "", current - 1));
        }
      }
    }

    method HandleRightBrace()
      requires Valid()
      modifies `stack, `scope, `braceCount
      ensures Valid() && RightBraceStep(old(Now()), Now())
    {
      if braceCount > 0 {
        braceCount := braceCount - 1;
      }
      if Top(stack).braceIndex == braceCount {
        Pop();
        assert stack != [];
      }
    }

    method HandleSemi()
      requires Valid() && 0 <= current < |tokens|
      modifies `stack, `scope, `entries, `count
      ensures Valid() && SemiStep(tokens, fileId, current, old(Now()), Now())
    {
      if Top(stack).kind == ContainerPending {
        Pop();
        assert stack != [];
      } else if Top(stack).kind == FunctionPending {
        EndFunction();
      }
    }

    /** What a semicolon makes of a function that waits for its body. */
    method EndFunction()
      requires Valid() && 0 <= current < |tokens| && Top(stack).kind == FunctionPending
      modifies `stack, `scope, `entries, `count
      ensures Valid() && stack == Popped(old(stack)) && scope == old(scope)
      ensures if KindOf(tokens, current - 1) == Equal || KindOf(tokens, current - 1) == RParen
              then Declares(tokens, fileId, scope, Top(old(stack)).pendingIndex, old(entries), entries)
              else entries == old(entries)
    {
      DeclareAt(Top(stack).pendingIndex);
      PopPending();
    }

    method DeclareAt(i: nat)
      requires Recording() && IsIdentifier(tokens, i) && 0 <= current < |tokens|
      modifies `entries, `count
      ensures Recording()
      ensures if KindOf(tokens, current - 1) == Equal || KindOf(tokens, current - 1) == RParen
              then Declares(tokens, fileId, scope, i, old(entries), entries)
              else entries == old(entries)
    {
      if KindOf(tokens, current - 1) == Equal || KindOf(tokens, current - 1) == RParen {
        Declare(i);
      }
    }

    /** A declaration is recorded within the scope alone. */
    method Declare(i: nat)
      requires Recording() && IsIdentifier(tokens, i)
      modifies `entries, `count
      ensures Recording() && Declares(tokens, fileId, scope, i, old(entries), entries)
    {
      var name, offset := tokens[i].spelling, tokens[i].offset;
      if KindOf(tokens, i - 1) == Tilde {
        name, offset := "~" + name, offset - 1;
      }
      if !IsKeyWord(name) {
        var loc := Location(fileId, offset);
        var after := AddEntry(entries, scope, name, loc);
        DefinitionIsSound(tokens, fileId, start, entries, after, scope, name, loc, i);
        entries := after;
        count := count + 1;
      }
    }

    /** What the token loop does for the current token. */
    method Handle()
      requires Valid() && 0 <= current < |tokens|
      modifies `stack, `scope, `entries, `count, `braceCount
      ensures Valid() && IsStep(tokens, fileId, current, old(Now()), Now())
    {
      match tokens[current].kind {
        case Identifier => HandleRawIdentifier();
        case LBrace => HandleLeftBrace();
        case Colon => HandleColon();
        case RBrace => HandleRightBrace();
        case LParen => HandleLeftParen();
        case Semi => HandleSemi();
        case _ =>
      }
    }

    /** The token loop: it takes the machine from its first state through one step a token. */
    method Parse() returns (recorded: nat, ghost run: seq<Machine>)
      requires Valid() && current == 0
      modifies this
      ensures Valid() && current == |tokens| && recorded == count
      ensures IsRun(tokens, fileId, |tokens|, run) && run[0] == old(Now()) && run[|tokens|] == Now()
    {
      run := [Now()];
      while current < |tokens|
        invariant Valid() && 0 <= current <= |tokens|
        invariant IsRun(tokens, fileId, current, run) && run[0] == old(Now()) && run[current] == Now()
        decreases |tokens| - current
      {
        Handle();
        run := run + [Now()];
        current := current + 1;
      }
      recorded := count;
    }
  }

  function Kinds(tokens: seq<Token>): (kinds: seq<Kind>)
    ensures |kinds| == |tokens| && forall i :: 0 <= i < |kinds| ==> kinds[i] == tokens[i].kind
  {
    seq(|tokens|, i requires 0 <= i < |tokens| => tokens[i].kind)
  }
}
