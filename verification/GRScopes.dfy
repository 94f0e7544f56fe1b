/** What a run of the parser's machine means: the stack is that of the braces around the current
    token, and the scope names the containers among them, as long as no closing brace has met
    with a pending state (src/GRParser.cpp). */
module GRScopes {
  import opened GRNames
  import opened GRParser
  import opened Locations
  import opened Matching
  import opened Options

  // --- The braces around a token ---

  ghost predicate ClosedBefore(kinds: seq<Kind>, p: int, i: int) {
    exists q :: q < i && Partners(kinds, p, q)
  }

  /** The positions of the braces that are open before token i, outermost first. */
  function Open(kinds: seq<Kind>, i: nat): (open: seq<nat>)
    requires i <= |kinds|
    ensures forall k :: 0 <= k < |open| ==> open[k] < i
  {
    if i == 0 then []
    else
      var open := Open(kinds, i - 1);
      match kinds[i - 1]
      case LBrace => open + [i - 1]
      case RBrace => if open == [] then [] else open[..|open| - 1]
      case _ => open
  }

  /** They are in order, and each has as many around it as stand before it. */
  ghost predicate InOrder(kinds: seq<Kind>, open: seq<nat>)
    requires forall k :: 0 <= k < |open| ==> open[k] < |kinds|
  {
    && (forall k :: 0 <= k < |open| ==> kinds[open[k]] == LBrace && |Open(kinds, open[k])| == k)
    && (forall j, k :: 0 <= j < k < |open| ==> open[j] < open[k])
  }

  lemma {:induction false} OpenIsInOrder(kinds: seq<Kind>, i: nat)
    requires i <= |kinds|
    ensures InOrder(kinds, Open(kinds, i))
  {
    if i > 0 {
      OpenIsInOrder(kinds, i - 1);
    }
  }

  /** The k-th of n open braces: it has been open all the time, with the others within. */
  ghost predicate IsOpen(kinds: seq<Kind>, i: nat, p: nat, depth: int)
    requires p < i <= |kinds|
  {
    Balance(kinds, LBrace, p, i) == depth && StaysOpen(kinds, LBrace, p, i)
  }

  lemma {:induction false} OpenIsOpen(kinds: seq<Kind>, i: nat, k: nat)
    requires i <= |kinds| && k < |Open(kinds, i)|
    ensures IsOpen(kinds, i, Open(kinds, i)[k], |Open(kinds, i)| - k)
  {
    var p := Open(kinds, i)[k];
    if p < i - 1 {
      assert Open(kinds, i - 1)[k] == p;
      OpenIsOpen(kinds, i - 1, k);
    } else {
      BalanceOfOne(kinds, LBrace, p);
    }
  }

  /** A closing brace belongs to the innermost brace that is open. */
  lemma InnermostIsPartner(kinds: seq<Kind>, j: nat)
    requires j < |kinds| && kinds[j] == RBrace && Open(kinds, j) != []
    ensures Partners(kinds, Open(kinds, j)[|Open(kinds, j)| - 1], j)
  {
    OpenIsInOrder(kinds, j);
    OpenIsOpen(kinds, j, |Open(kinds, j)| - 1);
  }

  lemma {:induction false} OthersAreClosed(kinds: seq<Kind>, i: nat, p: nat)
    requires p < i <= |kinds| && kinds[p] == LBrace && p !in Open(kinds, i)
    ensures ClosedBefore(kinds, p, i)
  {
    if p < i - 1 {
      if p !in Open(kinds, i - 1) {
        OthersAreClosed(kinds, i - 1, p);
      } else {
        InnermostIsPartner(kinds, i - 1);
      }
    }
  }

  /** A brace is open exactly if it has no partner yet. */
  lemma OpenIff(kinds: seq<Kind>, i: nat, p: nat)
    requires p < i <= |kinds| && kinds[p] == LBrace
    ensures p in Open(kinds, i) <==> !ClosedBefore(kinds, p, i)
  {
    if p !in Open(kinds, i) {
      OthersAreClosed(kinds, i, p);
    } else {
      var k :| 0 <= k < |Open(kinds, i)| && Open(kinds, i)[k] == p;
      OpenIsOpen(kinds, i, k);
      forall q | q < i ensures !Partners(kinds, p, q) {
        assert p < q ==> Balance(kinds, LBrace, p, q + 1) > 0;
      }
    }
  }

  lemma ClosedOnce(kinds: seq<Kind>, p: int, j: int)
    requires ClosedBefore(kinds, p, j)
    ensures !Partners(kinds, p, j)
  {
    var q :| q < j && Partners(kinds, p, q);
    if Partners(kinds, p, j) {
      OnePartnerAfter(kinds, p, q, j);
    }
  }

  lemma InnermostCloses(kinds: seq<Kind>, j: nat, p: int)
    requires j < |kinds| && kinds[j] == RBrace
    ensures var open := Open(kinds, j); Partners(kinds, p, j) <==> open != [] && p == open[|open| - 1]
  {
    var open := Open(kinds, j);
    if open != [] {
      InnermostIsPartner(kinds, j);
      if Partners(kinds, p, j) {
        OnePartnerBefore(kinds, p, open[|open| - 1], j);
      }
    } else {
      PartnerIsBracket(kinds, p, j);
      if 0 <= p < j && kinds[p] == LBrace {
        OpenIff(kinds, j, p);
        ClosedOnce(kinds, p, j);
      }
    }
  }

  // --- The states of these braces ---

  /** The state the brace p opens: that of the function whose body it is, or of the container by
      the name it has by its tokens. */
  ghost function Opened(tokens: seq<Token>, run: seq<Machine>, p: nat): Option<State>
    requires p < |run| && Stacked(run)
  {
    match Top(run[p].stack).kind
    case FunctionPending => Some(State(FunctionBody, run[p].braceCount, "", -1))
    case ContainerPending =>
      var k := Began(run, p);
      var c := if 0 <= k < p then ContainerName(tokens, k, p) else -1;
      if !IsIdentifier(tokens, c) || IsKeyWord(tokens[c].spelling) then None
      else Some(State(Container, run[p].braceCount, tokens[c].spelling, -1))
    case _ => None
  }

  /** The stack without a pending state. */
  function Base(stack: seq<State>): seq<State>
    requires stack != []
  {
    if Pending(Top(stack)) then Popped(stack) else stack
  }

  /** The global state, and those state by the braces before p that are around token i. */
  ghost function Enclosing(tokens: seq<Token>, run: seq<Machine>, i: nat, p: nat): seq<State>
    requires p <= |tokens| && p <= |run| && Stacked(run)
  {
    if p == 0 then [Plain(Global)]
    else
      var before := Enclosing(tokens, run, i, p - 1);
      if tokens[p - 1].kind != LBrace || ClosedBefore(Kinds(tokens), p - 1, i) then before
      else
        var state := Opened(tokens, run, p - 1);
        if state.Some? then before + [state.value] else before
  }

  /** A brace that closes a container or a function meets with a pending state. */
  ghost predicate Misses(tokens: seq<Token>, run: seq<Machine>, j: nat)
    requires j < |tokens| && j < |run| && Stacked(run)
  {
    && tokens[j].kind == RBrace && Pending(Top(run[j].stack))
    && exists p: nat :: p < j && Partners(Kinds(tokens), p, j) && Opened(tokens, run, p).Some?
  }

  /** The same states, by the list of open braces. */
  ghost function States(tokens: seq<Token>, run: seq<Machine>, open: seq<nat>, n: nat): seq<State>
    requires n <= |open| && Stacked(run) && forall k :: 0 <= k < |open| ==> open[k] < |run|
  {
    if n == 0 then [Plain(Global)]
    else
      var state := Opened(tokens, run, open[n - 1]);
      States(tokens, run, open, n - 1) + if state.Some? then [state.value] else []
  }

  /** The first n of the open braces are those before p. */
  ghost predicate Splits(open: seq<nat>, p: nat, n: nat) {
    n <= |open| && forall k :: 0 <= k < |open| ==> (open[k] < p <==> k < n)
  }

  lemma SplitsBefore(kinds: seq<Kind>, i: nat, p: nat, n: nat)
    requires 0 < p <= i <= |kinds| && Splits(Open(kinds, i), p, n)
    ensures if kinds[p - 1] == LBrace && !ClosedBefore(kinds, p - 1, i)
            then n > 0 && Open(kinds, i)[n - 1] == p - 1 && Splits(Open(kinds, i), p - 1, n - 1)
            else Splits(Open(kinds, i), p - 1, n)
  {
    OpenIsInOrder(kinds, i);
    if kinds[p - 1] == LBrace {
      OpenIff(kinds, i, p - 1);
    }
    if p - 1 in Open(kinds, i) {
      var k :| 0 <= k < |Open(kinds, i)| && Open(kinds, i)[k] == p - 1;
      assert k == n - 1;
    }
  }

  lemma {:induction false} EnclosingIsStates(tokens: seq<Token>, run: seq<Machine>, i: nat, p: nat, n: nat)
    requires p <= i <= |tokens| && i <= |run| && Stacked(run) && Splits(Open(Kinds(tokens), i), p, n)
    ensures Enclosing(tokens, run, i, p) == States(tokens, run, Open(Kinds(tokens), i), n)
  {
    if p > 0 {
      var kinds := Kinds(tokens);
      SplitsBefore(kinds, i, p, n);
      if kinds[p - 1] == LBrace && !ClosedBefore(kinds, p - 1, i) {
        EnclosingIsStates(tokens, run, i, p - 1, n - 1);
      } else {
        EnclosingIsStates(tokens, run, i, p - 1, n);
      }
    }
  }

  lemma {:induction false} StatesOfStart(tokens: seq<Token>, run: seq<Machine>, a: seq<nat>, b: seq<nat>, n: nat)
    requires n <= |a| && n <= |b| && Stacked(run) && forall k :: 0 <= k < n ==> a[k] == b[k]
    requires forall k :: 0 <= k < |a| ==> a[k] < |run|
    requires forall k :: 0 <= k < |b| ==> b[k] < |run|
    ensures States(tokens, run, a, n) == States(tokens, run, b, n)
  {
    if n > 0 {
      StatesOfStart(tokens, run, a, b, n - 1);
    }
  }

  // --- A run keeps them on the stack ---

  /** What is known of the i-th machine of a run whatever has happened. */
  ghost predicate Counts(tokens: seq<Token>, run: seq<Machine>, i: nat)
    requires i <= |tokens| && i < |run|
  {
    run[i].braceCount == |Open(Kinds(tokens), i)|
  }

  lemma {:induction false} RunCounts(tokens: seq<Token>, fileId: FileId, n: nat, run: seq<Machine>, i: nat)
    requires Lexed(tokens) && i <= n <= |tokens| && IsRun(tokens, fileId, n, run) && IsStart(run[0])
    ensures Counts(tokens, run, i)
  {
    if i > 0 {
      RunCounts(tokens, fileId, n, run, i - 1);
      assert IsStep(tokens, fileId, i - 1, run[i - 1], run[i]);
      CountStep(tokens, fileId, i - 1, run[i - 1], run[i]);
    }
  }

  lemma CountStep(tokens: seq<Token>, fileId: FileId, i: nat, a: Machine, b: Machine)
    requires Lexed(tokens) && i < |tokens| && IsStep(tokens, fileId, i, a, b)
    requires a.braceCount == |Open(Kinds(tokens), i)|
    ensures b.braceCount == |Open(Kinds(tokens), i + 1)|
  {
  }

  /** What a token does to the stack, apart from a pending state. */
  lemma OtherStep(tokens: seq<Token>, fileId: FileId, i: nat, a: Machine, b: Machine)
    requires Lexed(tokens) && i < |tokens| && IsStep(tokens, fileId, i, a, b)
    requires tokens[i].kind != LBrace && tokens[i].kind != RBrace
    ensures b.stack != [] && Base(b.stack) == Base(a.stack)
  {
  }

  /** The same by what is pending. */
  function OpenedAfter(tokens: seq<Token>, a: Machine, p: nat): Option<State>
    requires a.stack != []
  {
    var top := Top(a.stack);
    match top.kind
    case FunctionPending => Some(State(FunctionBody, a.braceCount, "", -1))
    case ContainerPending =>
      var c := ContainerToken(tokens, top, p);
      if !IsIdentifier(tokens, c) || IsKeyWord(tokens[c].spelling) then None
      else Some(State(Container, a.braceCount, tokens[c].spelling, -1))
    case _ => None
  }

  lemma OpenedIsPending(tokens: seq<Token>, run: seq<Machine>, p: nat)
    requires p < |tokens| && p < |run| && Stacked(run) && PendingIsRight(tokens, run, p)
    ensures Opened(tokens, run, p) == OpenedAfter(tokens, run[p], p)
  {
  }

  lemma OpenStep(tokens: seq<Token>, fileId: FileId, i: nat, a: Machine, b: Machine)
    requires Lexed(tokens) && i < |tokens| && IsStep(tokens, fileId, i, a, b) && tokens[i].kind == LBrace
    ensures var state := OpenedAfter(tokens, a, i);
      b.stack != [] && Base(b.stack) == Base(a.stack) + if state.Some? then [state.value] else []
  {
  }

  lemma CloseStep(tokens: seq<Token>, fileId: FileId, i: nat, a: Machine, b: Machine)
    requires Lexed(tokens) && i < |tokens| && IsStep(tokens, fileId, i, a, b) && tokens[i].kind == RBrace
    requires a.braceCount >= 0
    ensures b.stack != []
    ensures Base(b.stack) ==
      if !Pending(Top(a.stack)) && Top(a.stack).braceIndex == (if a.braceCount > 0 then a.braceCount - 1 else 0)
      then Popped(a.stack) else Base(a.stack)
  {
  }

  ghost predicate Known(tokens: seq<Token>, run: seq<Machine>, i: nat) {
    i <= |tokens| && i < |run| && Stacked(run) && forall k :: 0 <= k <= i ==> Counts(tokens, run, k)
  }

  /** The state of the k-th of the open braces has their number around it as its brace index. */
  lemma OpenedIsOpen(tokens: seq<Token>, run: seq<Machine>, i: nat, k: nat)
    requires Known(tokens, run, i) && k < |Open(Kinds(tokens), i)|
    ensures var p := Open(Kinds(tokens), i)[k];
      var state := Opened(tokens, run, p);
      state.Some? ==> !Pending(state.value) && state.value.braceIndex == k
  {
    OpenIsInOrder(Kinds(tokens), i);
    assert Counts(tokens, run, Open(Kinds(tokens), i)[k]);
  }

  /** The top of the first n states has a brace index below n. */
  lemma {:induction false} TopIsBelow(tokens: seq<Token>, run: seq<Machine>, i: nat, n: nat)
    requires Known(tokens, run, i) && n <= |Open(Kinds(tokens), i)|
    ensures var states := States(tokens, run, Open(Kinds(tokens), i), n);
      states != [] && !Pending(Top(states)) && Top(states).braceIndex < n
  {
    if n > 0 {
      TopIsBelow(tokens, run, i, n - 1);
      OpenedIsOpen(tokens, run, i, n - 1);
    }
  }

  /** The stack holds exactly the states of the braces around token i. */
  ghost predicate Aligned(tokens: seq<Token>, run: seq<Machine>, i: nat)
    requires i <= |tokens| && i < |run| && Stacked(run)
  {
    Base(run[i].stack) == Enclosing(tokens, run, i, i)
  }

  lemma AllStates(tokens: seq<Token>, run: seq<Machine>, i: nat)
    requires i <= |tokens| && i < |run| && Stacked(run)
    ensures var open := Open(Kinds(tokens), i);
      Enclosing(tokens, run, i, i) == States(tokens, run, open, |open|)
  {
    EnclosingIsStates(tokens, run, i, i, |Open(Kinds(tokens), i)|);
  }

  lemma OtherAligns(tokens: seq<Token>, fileId: FileId, run: seq<Machine>, i: nat)
    requires Lexed(tokens) && i < |tokens| && i + 1 < |run| && Stacked(run)
    requires IsStep(tokens, fileId, i, run[i], run[i + 1])
    requires tokens[i].kind != LBrace && tokens[i].kind != RBrace && Aligned(tokens, run, i)
    ensures Aligned(tokens, run, i + 1)
  {
    OtherStep(tokens, fileId, i, run[i], run[i + 1]);
    AllStates(tokens, run, i);
    AllStates(tokens, run, i + 1);
  }

  lemma OpenAligns(tokens: seq<Token>, fileId: FileId, run: seq<Machine>, i: nat)
    requires Lexed(tokens) && i < |tokens| && i + 1 < |run| && Stacked(run)
    requires IsStep(tokens, fileId, i, run[i], run[i + 1])
    requires tokens[i].kind == LBrace && Aligned(tokens, run, i) && PendingIsRight(tokens, run, i)
    ensures Aligned(tokens, run, i + 1)
  {
    OpenedIsPending(tokens, run, i);
    OpenStep(tokens, fileId, i, run[i], run[i + 1]);
    AllStates(tokens, run, i);
    AllStates(tokens, run, i + 1);
    var open, open' := Open(Kinds(tokens), i), Open(Kinds(tokens), i + 1);
    StatesOfStart(tokens, run, open', open, |open|);
  }

  /** A closing brace with no open one before it does nothing. */
  lemma StrayAligns(tokens: seq<Token>, fileId: FileId, run: seq<Machine>, i: nat)
    requires Lexed(tokens) && i + 1 < |run| && Known(tokens, run, i) && i < |tokens|
    requires IsStep(tokens, fileId, i, run[i], run[i + 1])
    requires tokens[i].kind == RBrace && Open(Kinds(tokens), i) == [] && Aligned(tokens, run, i)
    ensures Aligned(tokens, run, i + 1) && !Misses(tokens, run, i)
  {
    assert Counts(tokens, run, i);
    CloseStep(tokens, fileId, i, run[i], run[i + 1]);
    AllStates(tokens, run, i);
    AllStates(tokens, run, i + 1);
    forall p: nat ensures !Partners(Kinds(tokens), p, i) {
      InnermostCloses(Kinds(tokens), i, p);
    }
  }

  /** A closing brace takes the last state off exactly if that is on top. */
  lemma CloseMatchesIff(stack: seq<State>, rest: seq<State>, state: Option<State>, count: nat)
    requires stack != [] && Base(stack) == rest + if state.Some? then [state.value] else []
    requires rest != [] && !Pending(Top(rest)) && Top(rest).braceIndex < count
    requires state.Some? ==> !Pending(state.value) && state.value.braceIndex == count
    ensures (if !Pending(Top(stack)) && Top(stack).braceIndex == count then Popped(stack) else Base(stack)) == rest
       <==> !(Pending(Top(stack)) && state.Some?)
  {
    if state.Some? && !Pending(Top(stack)) {
      assert Popped(stack) == rest;
    }
  }

  lemma MissesIff(tokens: seq<Token>, run: seq<Machine>, i: nat)
    requires Known(tokens, run, i) && i < |tokens| && tokens[i].kind == RBrace && Open(Kinds(tokens), i) != []
    ensures var last := Open(Kinds(tokens), i)[|Open(Kinds(tokens), i)| - 1];
      Misses(tokens, run, i) <==> Pending(Top(run[i].stack)) && Opened(tokens, run, last).Some?
  {
    forall p: nat ensures Partners(Kinds(tokens), p, i) <==> p == Open(Kinds(tokens), i)[|Open(Kinds(tokens), i)| - 1] {
      InnermostCloses(Kinds(tokens), i, p);
    }
  }

  /** The state of the brace that is closed is the last one, and is not to be there afterwards. */
  lemma LastGoes(tokens: seq<Token>, run: seq<Machine>, i: nat)
    requires Known(tokens, run, i) && i < |tokens| && i + 1 < |run|
    requires tokens[i].kind == RBrace && Open(Kinds(tokens), i) != []
    ensures var open := Open(Kinds(tokens), i);
      var rest, state := States(tokens, run, open, |open| - 1), Opened(tokens, run, open[|open| - 1]);
      && Enclosing(tokens, run, i, i) == rest + (if state.Some? then [state.value] else [])
      && Enclosing(tokens, run, i + 1, i + 1) == rest
  {
    var open, open' := Open(Kinds(tokens), i), Open(Kinds(tokens), i + 1);
    AllStates(tokens, run, i);
    AllStates(tokens, run, i + 1);
    StatesOfStart(tokens, run, open', open, |open| - 1);
  }

  /** What is known of the last state and of those before it. */
  lemma LastIs(tokens: seq<Token>, run: seq<Machine>, i: nat) returns (rest: seq<State>, state: Option<State>)
    requires Known(tokens, run, i) && i < |tokens| && i + 1 < |run|
    requires tokens[i].kind == RBrace && Open(Kinds(tokens), i) != []
    ensures Enclosing(tokens, run, i, i) == rest + if state.Some? then [state.value] else []
    ensures Enclosing(tokens, run, i + 1, i + 1) == rest
    ensures rest != [] && !Pending(Top(rest)) && Top(rest).braceIndex < run[i].braceCount - 1
    ensures state.Some? ==> !Pending(state.value) && state.value.braceIndex == run[i].braceCount - 1
    ensures Misses(tokens, run, i) <==> Pending(Top(run[i].stack)) && state.Some?
  {
    var open := Open(Kinds(tokens), i);
    var n := |open| - 1;
    assert Counts(tokens, run, i);
    LastGoes(tokens, run, i);
    OpenedIsOpen(tokens, run, i, n);
    TopIsBelow(tokens, run, i, n);
    MissesIff(tokens, run, i);
    rest, state := States(tokens, run, open, n), Opened(tokens, run, open[n]);
  }

  lemma CloseAlignsIff(tokens: seq<Token>, fileId: FileId, run: seq<Machine>, i: nat)
    requires Lexed(tokens) && Known(tokens, run, i) && i < |tokens| && i + 1 < |run|
    requires IsStep(tokens, fileId, i, run[i], run[i + 1])
    requires tokens[i].kind == RBrace && Open(Kinds(tokens), i) != [] && Aligned(tokens, run, i)
    ensures Aligned(tokens, run, i + 1) <==> !Misses(tokens, run, i)
  {
    assert Counts(tokens, run, i);
    CloseStep(tokens, fileId, i, run[i], run[i + 1]);
    var rest, state := LastIs(tokens, run, i);
    CloseMatchesIff(run[i].stack, rest, state, run[i].braceCount - 1);
  }

  lemma AlignsIff(tokens: seq<Token>, fileId: FileId, run: seq<Machine>, i: nat)
    requires Lexed(tokens) && i + 1 < |run| && Known(tokens, run, i) && i < |tokens|
    requires IsStep(tokens, fileId, i, run[i], run[i + 1]) && Aligned(tokens, run, i)
    requires PendingIsRight(tokens, run, i)
    ensures Aligned(tokens, run, i + 1) <==> !Misses(tokens, run, i)
  {
    if tokens[i].kind == LBrace {
      OpenAligns(tokens, fileId, run, i);
    } else if tokens[i].kind != RBrace {
      OtherAligns(tokens, fileId, run, i);
    } else if Open(Kinds(tokens), i) == [] {
      StrayAligns(tokens, fileId, run, i);
    } else {
      CloseAlignsIff(tokens, fileId, run, i);
    }
  }

  ghost predicate NoneMisses(tokens: seq<Token>, run: seq<Machine>, n: nat)
    requires n <= |tokens| && n <= |run| && Stacked(run)
  {
    forall j :: 0 <= j < n ==> !Misses(tokens, run, j)
  }

  ghost predicate AllAligned(tokens: seq<Token>, run: seq<Machine>, n: nat)
    requires n <= |tokens| && n < |run| && Stacked(run)
  {
    forall i :: 0 <= i <= n ==> Aligned(tokens, run, i)
  }

  lemma RunIsKnown(tokens: seq<Token>, fileId: FileId, n: nat, run: seq<Machine>)
    requires Lexed(tokens) && n <= |tokens| && IsRun(tokens, fileId, n, run) && IsStart(run[0])
    ensures Stacked(run) && Known(tokens, run, n)
  {
    RunIsStacked(tokens, fileId, n, run);
    forall k | 0 <= k <= n ensures Counts(tokens, run, k) {
      RunCounts(tokens, fileId, n, run, k);
    }
  }

  lemma AlignedNext(tokens: seq<Token>, fileId: FileId, run: seq<Machine>, i: nat)
    requires Lexed(tokens) && i + 1 < |run| && Known(tokens, run, i) && i < |tokens|
    requires IsStep(tokens, fileId, i, run[i], run[i + 1]) && PendingIsRight(tokens, run, i)
    requires AllAligned(tokens, run, i) <==> NoneMisses(tokens, run, i)
    ensures AllAligned(tokens, run, i + 1) <==> NoneMisses(tokens, run, i + 1)
  {
    if Aligned(tokens, run, i) {
      AlignsIff(tokens, fileId, run, i);
    }
    assert AllAligned(tokens, run, i + 1) <==> AllAligned(tokens, run, i) && Aligned(tokens, run, i + 1);
    assert NoneMisses(tokens, run, i + 1) <==> NoneMisses(tokens, run, i) && !Misses(tokens, run, i);
  }

  lemma {:induction false} AlignedWhile(tokens: seq<Token>, fileId: FileId, n: nat, run: seq<Machine>, i: nat)
    requires Lexed(tokens) && i <= n <= |tokens| && IsRun(tokens, fileId, n, run) && IsStart(run[0])
    requires Known(tokens, run, n)
    ensures AllAligned(tokens, run, i) <==> NoneMisses(tokens, run, i)
  {
    if i > 0 {
      AlignedWhile(tokens, fileId, n, run, i - 1);
      PendingIs(tokens, fileId, n, run, i - 1);
      AlignedNext(tokens, fileId, run, i - 1);
    }
  }

  // --- The theorems ---

  /** In every run of the parser, up to any token: the stack has been, at each token, that of the
      containers and functions whose brace is open there, with at most a pending state on top,
      exactly if no brace that closes one of them has met with a pending state. */
  lemma StackIsEnclosingIff(tokens: seq<Token>, fileId: FileId, n: nat, run: seq<Machine>)
    requires Lexed(tokens) && n <= |tokens| && IsRun(tokens, fileId, n, run) && IsStart(run[0])
    ensures Stacked(run)
    ensures AllAligned(tokens, run, n) <==> NoneMisses(tokens, run, n)
  {
    RunIsKnown(tokens, fileId, n, run);
    AlignedWhile(tokens, fileId, n, run, n);
  }

  /** So long, what is defined at a token is recorded within the names of the containers whose
      brace is open there, outermost first. */
  lemma ScopeIsEnclosing(tokens: seq<Token>, fileId: FileId, n: nat, run: seq<Machine>, i: nat)
    requires Lexed(tokens) && i < n <= |tokens| && IsRun(tokens, fileId, n, run) && IsStart(run[0])
    ensures Stacked(run)
    ensures NoneMisses(tokens, run, i) ==>
      var states := Enclosing(tokens, run, i, i); run[i].scope == Names(states, |states|)
  {
    RunIsKnown(tokens, fileId, n, run);
    AlignedWhile(tokens, fileId, n, run, i);
    assert IsStep(tokens, fileId, i, run[i], run[i + 1]);
    NamesOfBase(run[i].stack);
    if NoneMisses(tokens, run, i) {
      assert Aligned(tokens, run, i);
    }
  }

  lemma NamesOfBase(stack: seq<State>)
    requires stack != []
    ensures Names(Base(stack), |Base(stack)|) == Names(stack, |stack|)
  {
    if Pending(Top(stack)) {
      NamesOfStart(stack, Popped(stack), |stack| - 1);
    }
  }

  // --- A run that leaves a container on the stack ---

  /** A container with a macro in it that needs no semicolon: class A { M() }; */
  predicate IsMacroInClass(tokens: seq<Token>) {
    && Lexed(tokens)
    && Kinds(tokens) == [Identifier, Identifier, LBrace, Identifier, LParen, RParen, RBrace, Semi]
    && tokens[0].spelling == "class" && !IsKeyWord(tokens[1].spelling) && !OpensContext(tokens[3].spelling)
  }

  lemma MacroOpens(tokens: seq<Token>, fileId: FileId, run: seq<Machine>)
    requires IsMacroInClass(tokens) && IsRun(tokens, fileId, 8, run) && IsStart(run[0])
    ensures run[1].stack == run[2].stack == [Plain(Global), Plain(ContainerPending)] && run[2].braceCount == 0
    ensures run[4].stack == [Plain(Global), State(Container, 0, tokens[1].spelling, -1)] && run[4].braceCount == 1
  {
    assert Kinds(tokens)[0] == Identifier && Kinds(tokens)[1] == Identifier;
    assert Kinds(tokens)[2] == LBrace && Kinds(tokens)[3] == Identifier;
    assert IsStep(tokens, fileId, 0, run[0], run[1]);
    assert run[1].stack == [Plain(Global), Plain(ContainerPending)];
    assert IsStep(tokens, fileId, 1, run[1], run[2]);
    assert IsStep(tokens, fileId, 2, run[2], run[3]);
    assert Popped(run[2].stack) == [Plain(Global)];
    assert run[3].stack == [Plain(Global), State(Container, 0, tokens[1].spelling, -1)];
    assert IsStep(tokens, fileId, 3, run[3], run[4]);
  }

  lemma MacroIsNamed(tokens: seq<Token>, run: seq<Machine>)
    requires IsMacroInClass(tokens) && |run| > 2 && Stacked(run) && run[0].stack == [Plain(Global)]
    requires run[1].stack == run[2].stack == [Plain(Global), Plain(ContainerPending)]
    ensures Opened(tokens, run, 2).Some?
  {
    assert Began(run, 1) == 0 && Began(run, 2) == 0;
    assert Kinds(tokens)[1] == Identifier;
    assert ContainerName(tokens, 0, 2) == 1;
  }

  lemma MacroPends(tokens: seq<Token>, fileId: FileId, run: seq<Machine>)
    requires IsMacroInClass(tokens) && IsRun(tokens, fileId, 8, run)
    requires run[4].stack == [Plain(Global), State(Container, 0, tokens[1].spelling, -1)] && run[4].braceCount == 1
    ensures run[6].stack == run[4].stack + [State(FunctionPending, -1, "", 3)] && run[6].braceCount == 1
  {
    assert Kinds(tokens)[3] == Identifier && Kinds(tokens)[4] == LParen && Kinds(tokens)[5] == RParen;
    assert IsStep(tokens, fileId, 4, run[4], run[5]);
    assert IsStep(tokens, fileId, 5, run[5], run[6]);
  }

  lemma BracesOfMacro(kinds: seq<Kind>)
    requires kinds == [Identifier, Identifier, LBrace, Identifier, LParen, RParen, RBrace, Semi]
    ensures Open(kinds, 6) == [2] && Open(kinds, 8) == []
  {
    assert Open(kinds, 0) == [];
    assert Open(kinds, 1) == [];
    assert Open(kinds, 2) == [];
    assert Open(kinds, 3) == [2];
    assert Open(kinds, 5) == [2];
    assert Open(kinds, 7) == [];
  }

  /** The closing brace meets with what looks like a function that waits for its body: the class
      stays on the stack, and everything after it is taken to be in it. */
  lemma MacroKeepsScope(tokens: seq<Token>, fileId: FileId, run: seq<Machine>)
    requires IsMacroInClass(tokens) && IsRun(tokens, fileId, 8, run) && IsStart(run[0])
    ensures Stacked(run) && Misses(tokens, run, 6) && Open(Kinds(tokens), 8) == []
    ensures run[8].stack == [Plain(Global), State(Container, 0, tokens[1].spelling, -1)] && run[8].braceCount == 0
  {
    MacroOpens(tokens, fileId, run);
    MacroPends(tokens, fileId, run);
    var kinds := Kinds(tokens);
    assert kinds[6] == RBrace && kinds[7] == Semi;
    assert IsStep(tokens, fileId, 6, run[6], run[7]);
    assert IsStep(tokens, fileId, 7, run[7], run[8]);
    assert Popped(run[7].stack) == run[4].stack;
    RunIsKnown(tokens, fileId, 8, run);
    BracesOfMacro(kinds);
    InnermostIsPartner(kinds, 6);
    MacroIsNamed(tokens, run);
  }
}
