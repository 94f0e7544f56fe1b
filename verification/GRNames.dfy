/** What a run of the parser's machine calls things, by the positions of tokens: which token begins
    a container, a function or a call, and which one names it (src/GRParser.cpp). */
module GRNames {
  import opened GRParser
  import opened GRParses
  import opened Locations
  import opened Matching
  import opened Options

  ghost predicate Stacked(run: seq<Machine>) {
    forall i :: 0 <= i < |run| ==> run[i].stack != []
  }

  ghost predicate IsStart(m: Machine) {
    m.stack == [Plain(Global)] && m.braceCount == 0
  }

  // --- Where a container or a function begins ---

  /** A token that begins a container, unless something has begun already. */
  predicate IsContainerKey(tokens: seq<Token>, k: int) {
    && 0 <= k < |tokens| && tokens[k].kind == Identifier
    && tokens[k].spelling in {"class", "struct", "union", "namespace"}
    && (k > 0 ==> tokens[k - 1].kind != Comma && tokens[k - 1].kind != Less)
  }

  /** A parenthesis behind an identifier. */
  predicate IsNamedParen(tokens: seq<Token>, k: int) {
    0 < k < |tokens| && tokens[k].kind == LParen && tokens[k - 1].kind == Identifier
  }

  /** A colon behind an identifier. */
  predicate IsNamedColon(tokens: seq<Token>, j: int) {
    0 < j < |tokens| && tokens[j].kind == Colon && tokens[j - 1].kind == Identifier
  }

  /** The first such colon from one token on and before another. */
  function FirstColon(tokens: seq<Token>, from: nat, end: nat): (j: int)
    requires from <= end
    ensures j == -1 || (from <= j < end && IsNamedColon(tokens, j))
    ensures forall x :: from <= x < (if j == -1 then end else j) ==> !IsNamedColon(tokens, x)
    decreases end - from
  {
    if from == end then -1
    else if IsNamedColon(tokens, from) then from
    else FirstColon(tokens, from + 1, end)
  }

  /** The token after which something has been pending ever since, up to the i-th machine. */
  ghost function Began(run: seq<Machine>, i: nat): int
    requires i < |run| && Stacked(run)
  {
    if i == 0 || !Pending(Top(run[i - 1].stack)) then i - 1 else Began(run, i - 1)
  }

  /** The token a container is named by that began at token k and opens at the brace i: the
      identifier before the first colon that follows one or, if there is none, before the brace. */
  function ContainerName(tokens: seq<Token>, k: nat, i: nat): int
    requires k < i
  {
    var j := FirstColon(tokens, k + 1, i);
    if j != -1 then j - 1
    else if i <= |tokens| && tokens[i - 1].kind == Identifier then i - 1
    else -1
  }

  // --- What is pending ---

  /** What is pending before token i is what began at token k, and the rest is as it was then. */
  ghost predicate IsPending(tokens: seq<Token>, run: seq<Machine>, k: int, i: nat)
    requires i < |run| && Stacked(run)
  {
    && 0 <= k < i <= |tokens| && Popped(run[i].stack) == run[k].stack && !Pending(Top(run[k].stack))
    && run[i].scope == run[k].scope && run[i].entries == run[k].entries
    && var top := Top(run[i].stack);
      if top.kind == ContainerPending then
        IsContainerKey(tokens, k)
        && top.pendingIndex == (var j := FirstColon(tokens, k + 1, i); if j == -1 then -1 else j - 1)
      else
        IsNamedParen(tokens, k) && top.pendingIndex == k - 1
        && (Top(run[k].stack).kind == Global || Top(run[k].stack).kind == Container)
  }

  lemma FirstColonNext(tokens: seq<Token>, from: nat, end: nat)
    requires from <= end
    ensures FirstColon(tokens, from, end + 1)
         == if FirstColon(tokens, from, end) != -1 then FirstColon(tokens, from, end)
            else if IsNamedColon(tokens, end) then end else -1
  {
  }

  lemma BeginsHere(tokens: seq<Token>, fileId: FileId, run: seq<Machine>, i: nat)
    requires Lexed(tokens) && i < |tokens| && i + 1 < |run| && Stacked(run)
    requires IsStep(tokens, fileId, i, run[i], run[i + 1])
    requires !Pending(Top(run[i].stack)) && Pending(Top(run[i + 1].stack))
    ensures IsPending(tokens, run, i, i + 1)
  {
  }

  /** A brace or a semicolon ends what is pending. */
  lemma EndsPending(tokens: seq<Token>, fileId: FileId, i: nat, a: Machine, b: Machine)
    requires Lexed(tokens) && i < |tokens| && IsStep(tokens, fileId, i, a, b) && Pending(Top(a.stack))
    requires tokens[i].kind == LBrace || tokens[i].kind == Semi
    ensures b.stack != [] && !Pending(Top(b.stack))
  {
  }

  /** While something is pending, only a colon may change it. */
  lemma PendingStep(tokens: seq<Token>, fileId: FileId, i: nat, a: Machine, b: Machine)
    requires Lexed(tokens) && i < |tokens| && IsStep(tokens, fileId, i, a, b) && a.braceCount >= 0
    requires Pending(Top(a.stack)) && tokens[i].kind != LBrace && tokens[i].kind != Semi
    ensures b.stack != []
    ensures b.scope == a.scope && b.entries == a.entries && Popped(b.stack) == Popped(a.stack)
    ensures var top := Top(a.stack);
      Top(b.stack) == if top.kind == ContainerPending && top.pendingIndex == -1 && IsNamedColon(tokens, i)
                      then top.(pendingIndex := i - 1) else top
  {
  }

  lemma StaysPending(tokens: seq<Token>, fileId: FileId, run: seq<Machine>, k: int, i: nat)
    requires Lexed(tokens) && i < |tokens| && i + 1 < |run| && Stacked(run)
    requires IsStep(tokens, fileId, i, run[i], run[i + 1]) && run[i].braceCount >= 0
    requires IsPending(tokens, run, k, i) && Pending(Top(run[i].stack)) && Pending(Top(run[i + 1].stack))
    ensures IsPending(tokens, run, k, i + 1)
  {
    assert tokens[i].kind != LBrace && tokens[i].kind != Semi by {
      if tokens[i].kind == LBrace || tokens[i].kind == Semi {
        EndsPending(tokens, fileId, i, run[i], run[i + 1]);
      }
    }
    PendingStep(tokens, fileId, i, run[i], run[i + 1]);
    FirstColonNext(tokens, k + 1, i);
  }

  lemma StepIsStacked(tokens: seq<Token>, fileId: FileId, i: nat, a: Machine, b: Machine)
    requires Lexed(tokens) && i < |tokens| && IsStep(tokens, fileId, i, a, b) && a.braceCount >= 0
    ensures b.stack != [] && b.braceCount >= 0
  {
  }

  lemma {:induction false} MachineIsStacked(tokens: seq<Token>, fileId: FileId, n: nat, run: seq<Machine>, i: nat)
    requires Lexed(tokens) && i <= n <= |tokens| && IsRun(tokens, fileId, n, run) && IsStart(run[0])
    ensures run[i].stack != [] && run[i].braceCount >= 0
  {
    if i > 0 {
      MachineIsStacked(tokens, fileId, n, run, i - 1);
      StepIsStacked(tokens, fileId, i - 1, run[i - 1], run[i]);
    }
  }

  lemma RunIsStacked(tokens: seq<Token>, fileId: FileId, n: nat, run: seq<Machine>)
    requires Lexed(tokens) && n <= |tokens| && IsRun(tokens, fileId, n, run) && IsStart(run[0])
    ensures Stacked(run) && forall i :: 0 <= i <= n ==> run[i].braceCount >= 0
  {
    forall i | 0 <= i <= n ensures run[i].stack != [] && run[i].braceCount >= 0 {
      MachineIsStacked(tokens, fileId, n, run, i);
    }
  }

  ghost predicate PendingIsRight(tokens: seq<Token>, run: seq<Machine>, i: nat)
    requires i < |run| && Stacked(run)
  {
    Pending(Top(run[i].stack)) ==> IsPending(tokens, run, Began(run, i), i)
  }

  lemma PendingNext(tokens: seq<Token>, fileId: FileId, run: seq<Machine>, i: nat)
    requires Lexed(tokens) && i < |tokens| && i + 1 < |run| && Stacked(run)
    requires IsStep(tokens, fileId, i, run[i], run[i + 1]) && run[i].braceCount >= 0
    requires PendingIsRight(tokens, run, i)
    ensures PendingIsRight(tokens, run, i + 1)
  {
    if Pending(Top(run[i + 1].stack)) {
      if Pending(Top(run[i].stack)) {
        StaysPending(tokens, fileId, run, Began(run, i), i);
      } else {
        BeginsHere(tokens, fileId, run, i);
      }
    }
  }

  lemma {:induction false} PendingWhile(tokens: seq<Token>, fileId: FileId, n: nat, run: seq<Machine>, i: nat)
    requires Lexed(tokens) && i <= n <= |tokens| && IsRun(tokens, fileId, n, run) && IsStart(run[0])
    requires Stacked(run) && forall j :: 0 <= j <= n ==> run[j].braceCount >= 0
    ensures PendingIsRight(tokens, run, i)
  {
    if i > 0 {
      PendingWhile(tokens, fileId, n, run, i - 1);
      PendingNext(tokens, fileId, run, i - 1);
    }
  }

  /** Whatever is pending began at a key word of a container or at the parenthesis of a function,
      and it is about the token that names it. */
  lemma PendingIs(tokens: seq<Token>, fileId: FileId, n: nat, run: seq<Machine>, i: nat)
    requires Lexed(tokens) && i <= n <= |tokens| && IsRun(tokens, fileId, n, run) && IsStart(run[0])
    ensures Stacked(run) && (Pending(Top(run[i].stack)) ==> IsPending(tokens, run, Began(run, i), i))
  {
    RunIsStacked(tokens, fileId, n, run);
    PendingWhile(tokens, fileId, n, run, i);
  }

  // --- What each kind of token does, and what is recorded ---

  /** Something begins at token i exactly if nothing is pending and the token is a key word of a
      container, or a named parenthesis outside of functions. */
  lemma BeginsIff(tokens: seq<Token>, fileId: FileId, n: nat, run: seq<Machine>, i: nat)
    requires Lexed(tokens) && i < n <= |tokens| && IsRun(tokens, fileId, n, run) && IsStart(run[0])
    ensures Stacked(run)
    ensures var a, b := Top(run[i].stack), Top(run[i + 1].stack);
      !Pending(a) ==>
        && (b.kind == ContainerPending <==> IsContainerKey(tokens, i))
        && (b.kind == FunctionPending <==> IsNamedParen(tokens, i) && a.kind != FunctionBody)
        && (Pending(b) ==> Popped(run[i + 1].stack) == run[i].stack)
  {
    RunIsStacked(tokens, fileId, n, run);
    assert IsStep(tokens, fileId, i, run[i], run[i + 1]);
  }

  lemma DefinedAt(before: Entries, after: Entries, scope: seq<string>, name: string, loc: Location)
    requires Defined(before, after, scope, 0, name, loc)
    ensures At(after, name, loc) == Some(false)
  {
    assert name == Qualified(scope, |scope|, name);
    assert QualifiesFrom(scope, 0, name, name);
  }

  /** What is recorded is found under its name alone, and behind the innermost scope. */
  lemma DefinedWithin(before: Entries, after: Entries, scope: seq<string>, name: string, loc: Location)
    requires Defined(before, after, scope, 0, name, loc)
    ensures At(after, name, loc) == Some(false)
    ensures scope != [] ==> At(after, scope[|scope| - 1] + ("::" + name), loc) == Some(false)
  {
    DefinedAt(before, after, scope, name, loc);
    if scope != [] {
      var qualified := scope[|scope| - 1] + ("::" + name);
      assert qualified == Qualified(scope, |scope| - 1, name);
      assert QualifiesFrom(scope, 0, name, qualified);
    }
  }

  lemma OpensAt(tokens: seq<Token>, before: Entries, after: Entries, scope: seq<string>, from: int, name: string,
                loc: Location)
    requires OpensWith(tokens, before, after, scope, from, name, loc)
    ensures At(after, name, loc) == Some(false)
  {
    var context :| IsContext(tokens, from, context) && Defined(before, after, scope + context, 0, name, loc);
    DefinedAt(before, after, scope + context, name, loc);
  }

  /** A container named by token c, which began when the machine was as before, has its brace with
      so many others around it: it is on the stack, its name is the last of the scope, and is
      recorded at its place with all it is qualified by. Without a name, or with one that is a key
      word, there is none. */
  ghost predicate ContainerOpened(tokens: seq<Token>, fileId: FileId, before: Machine, braces: int, c: int,
                                  after: Machine)
    requires Lexed(tokens) && c < |tokens|
  {
    if c < 0 || IsKeyWord(tokens[c].spelling) then
      after.stack == before.stack && after.scope == before.scope && after.entries == before.entries
    else
      var name, loc := tokens[c].spelling, Location(fileId, tokens[c].offset);
      && after.stack == before.stack + [State(Container, braces, name, -1)]
      && after.scope == before.scope + [name] && At(after.entries, name, loc) == Some(false)
      && OpensWith(tokens, before.entries, after.entries, before.scope, c, name, loc)
  }

  lemma OpensContainerAs(tokens: seq<Token>, fileId: FileId, i: nat, a: Machine, b: Machine, c: int)
    requires Lexed(tokens) && i < |tokens| && IsStep(tokens, fileId, i, a, b) && tokens[i].kind == LBrace
    requires Top(a.stack).kind == ContainerPending
    requires c < |tokens| && c == ContainerToken(tokens, Top(a.stack), i)
    ensures ContainerOpened(tokens, fileId, a.(stack := Popped(a.stack)), a.braceCount, c, b)
  {
    if c != -1 && !IsKeyWord(tokens[c].spelling) {
      OpensAt(tokens, a.entries, b.entries, a.scope, c, tokens[c].spelling, Location(fileId, tokens[c].offset));
    }
  }

  /** A brace that ends the wait of a container opens it under the name it has by its tokens. */
  lemma ContainerIsNamed(tokens: seq<Token>, fileId: FileId, n: nat, run: seq<Machine>, i: nat)
    requires Lexed(tokens) && i < n <= |tokens| && IsRun(tokens, fileId, n, run) && IsStart(run[0])
    requires tokens[i].kind == LBrace && run[i].stack != [] && Top(run[i].stack).kind == ContainerPending
    ensures Stacked(run) && 0 <= Began(run, i) < i && IsContainerKey(tokens, Began(run, i))
    ensures var k := Began(run, i);
      ContainerOpened(tokens, fileId, run[k], run[i].braceCount, ContainerName(tokens, k, i), run[i + 1])
  {
    PendingIs(tokens, fileId, n, run, i);
    assert IsStep(tokens, fileId, i, run[i], run[i + 1]);
    OpensContainerAs(tokens, fileId, i, run[i], run[i + 1], ContainerName(tokens, Began(run, i), i));
  }

  /** What a function is called whose parenthesis is token k: with its tilde, if it has one. */
  function NameBefore(tokens: seq<Token>, k: int): string
    requires IsNamedParen(tokens, k)
  {
    if k > 1 && tokens[k - 2].kind == Tilde then "~" + tokens[k - 1].spelling else tokens[k - 1].spelling
  }

  function PlaceBefore(tokens: seq<Token>, fileId: FileId, k: int): Location
    requires Lexed(tokens) && IsNamedParen(tokens, k)
  {
    assert k > 1 ==> tokens[k - 2].offset < tokens[k - 1].offset;
    Location(fileId, if k > 1 && tokens[k - 2].kind == Tilde then tokens[k - 1].offset - 1 else tokens[k - 1].offset)
  }

  /** The function whose parenthesis is token k has its body opened: it is on the stack, and is
      recorded at its place within the scope and the names that qualify it, unless its name is a
      key word. */
  ghost predicate FunctionOpened(tokens: seq<Token>, fileId: FileId, before: Machine, braces: int, k: int,
                                 after: Machine)
    requires Lexed(tokens) && IsNamedParen(tokens, k)
  {
    && after.stack == before.stack + [State(FunctionBody, braces, "", -1)] && after.scope == before.scope
    && if IsKeyWord(tokens[k - 1].spelling) then after.entries == before.entries
       else
         var name, loc := NameBefore(tokens, k), PlaceBefore(tokens, fileId, k);
         && At(after.entries, name, loc) == Some(false)
         && OpensWith(tokens, before.entries, after.entries, before.scope,
                      if k > 1 && tokens[k - 2].kind == Tilde then k - 2 else k - 1, name, loc)
  }

  lemma SameName(tokens: seq<Token>, fileId: FileId, k: int)
    requires Lexed(tokens) && IsNamedParen(tokens, k)
    ensures NameBefore(tokens, k) == FunctionName(tokens, k - 1)
    ensures PlaceBefore(tokens, fileId, k) == FunctionPlace(tokens, fileId, k - 1)
    ensures KindOf(tokens, k - 2) == Tilde <==> k > 1 && tokens[k - 2].kind == Tilde
  {
  }

  lemma OpensFunctionAs(tokens: seq<Token>, fileId: FileId, i: nat, a: Machine, b: Machine, k: int)
    requires Lexed(tokens) && i < |tokens| && IsStep(tokens, fileId, i, a, b) && tokens[i].kind == LBrace
    requires Top(a.stack).kind == FunctionPending && IsNamedParen(tokens, k) && Top(a.stack).pendingIndex == k - 1
    ensures FunctionOpened(tokens, fileId, a.(stack := Popped(a.stack)), a.braceCount, k, b)
  {
    SameName(tokens, fileId, k);
    if !IsKeyWord(tokens[k - 1].spelling) {
      OpensAt(tokens, a.entries, b.entries, a.scope, if k > 1 && tokens[k - 2].kind == Tilde then k - 2 else k - 1,
              NameBefore(tokens, k), PlaceBefore(tokens, fileId, k));
    }
  }

  /** A brace that ends the wait of a function opens the body of the one named by its tokens. */
  lemma FunctionIsNamed(tokens: seq<Token>, fileId: FileId, n: nat, run: seq<Machine>, i: nat)
    requires Lexed(tokens) && i < n <= |tokens| && IsRun(tokens, fileId, n, run) && IsStart(run[0])
    requires tokens[i].kind == LBrace && run[i].stack != [] && Top(run[i].stack).kind == FunctionPending
    ensures Stacked(run) && 0 <= Began(run, i) < i && IsNamedParen(tokens, Began(run, i))
    ensures FunctionOpened(tokens, fileId, run[Began(run, i)], run[i].braceCount, Began(run, i), run[i + 1])
  {
    PendingIs(tokens, fileId, n, run, i);
    assert IsStep(tokens, fileId, i, run[i], run[i + 1]);
    OpensFunctionAs(tokens, fileId, i, run[i], run[i + 1], Began(run, i));
  }

  /** A semicolon ends whatever waits. It records a function as declared, within the scope alone,
      exactly if it follows a closing parenthesis or an equals sign, and the name is no key word. */
  lemma DeclarationIsNamed(tokens: seq<Token>, fileId: FileId, n: nat, run: seq<Machine>, i: nat)
    requires Lexed(tokens) && i < n <= |tokens| && IsRun(tokens, fileId, n, run) && IsStart(run[0])
    requires tokens[i].kind == Semi && run[i].stack != [] && Pending(Top(run[i].stack))
    ensures Stacked(run) && 0 <= Began(run, i) < i
    ensures var k := Began(run, i);
      && run[i + 1].stack == run[k].stack && run[i + 1].scope == run[k].scope
      && if IsNamedParen(tokens, k) && tokens[i - 1].kind in {RParen, Equal} && !IsKeyWord(NameBefore(tokens, k))
         then
           var name, loc := NameBefore(tokens, k), PlaceBefore(tokens, fileId, k);
           && At(run[i + 1].entries, name, loc) == Some(false)
           && Defined(run[k].entries, run[i + 1].entries, run[k].scope, 0, name, loc)
         else run[i + 1].entries == run[k].entries
  {
    PendingIs(tokens, fileId, n, run, i);
    assert IsStep(tokens, fileId, i, run[i], run[i + 1]);
    var k := Began(run, i);
    if IsNamedParen(tokens, k) && tokens[i - 1].kind in {RParen, Equal} && !IsKeyWord(NameBefore(tokens, k)) {
      DefinedAt(run[k].entries, run[i + 1].entries, run[k].scope, NameBefore(tokens, k),
                PlaceBefore(tokens, fileId, k));
    }
  }

  /** The identifier a parenthesis calls: that before it, or before the template arguments that
      end there. */
  ghost predicate IsCalled(tokens: seq<Token>, i: int, c: int)
    requires 0 <= i < |tokens|
  {
    && 0 <= c < i && tokens[c].kind == Identifier
    && (c == i - 1 || (tokens[i - 1].kind == Greater && Partners(Kinds(tokens), c + 1, i - 1)))
  }

  lemma CalleeIsCalled(tokens: seq<Token>, i: nat, x: int, c: int)
    requires i < |tokens| && x < |tokens| && IsCallee(tokens, i, x)
    ensures IsCalled(tokens, i, c) ==> x == c
    ensures x == -1 || (x == c ==> IsCalled(tokens, i, c))
  {
    if IsCalled(tokens, i, c) {
      assert IsCallee(tokens, i, c);
      OneCallee(tokens, i, x, c);
    }
  }

  /** A parenthesis in a function records a reference to the identifier it calls, if there is one
      that is no key word, and nothing else. */
  lemma CallIsRecorded(tokens: seq<Token>, fileId: FileId, n: nat, run: seq<Machine>, i: nat, c: int,
                       name: string, loc: Location)
    requires Lexed(tokens) && i < n <= |tokens| && IsRun(tokens, fileId, n, run) && IsStart(run[0])
    requires tokens[i].kind == LParen && run[i].stack != [] && Top(run[i].stack).kind == FunctionBody
    ensures run[i + 1].stack == run[i].stack && run[i + 1].scope == run[i].scope
    ensures IsCalled(tokens, i, c) ==>
      At(run[i + 1].entries, name, loc)
      == if !IsKeyWord(tokens[c].spelling) && name == tokens[c].spelling && loc == Location(fileId, tokens[c].offset)
         then Some(true) else At(run[i].entries, name, loc)
    ensures (forall x :: !IsCalled(tokens, i, x)) ==> run[i + 1].entries == run[i].entries
  {
    assert IsStep(tokens, fileId, i, run[i], run[i + 1]);
    var x: int :| x < |tokens| && IsCallee(tokens, i, x)
      && run[i + 1] == run[i].(entries := Referred(tokens, fileId, x, run[i].entries));
    CalleeIsCalled(tokens, i, x, c);
    CalleeIsCalled(tokens, i, x, x);
  }

  /** Nothing else is recorded. */
  lemma OthersRecordNothing(tokens: seq<Token>, fileId: FileId, n: nat, run: seq<Machine>, i: nat)
    requires Lexed(tokens) && i < n <= |tokens| && IsRun(tokens, fileId, n, run) && run[i].stack != []
    requires !(tokens[i].kind in {LBrace, Semi} && Pending(Top(run[i].stack)))
    requires !(tokens[i].kind == LParen && Top(run[i].stack).kind == FunctionBody)
    ensures run[i + 1].entries == run[i].entries
  {
    assert IsStep(tokens, fileId, i, run[i], run[i + 1]);
  }
}
