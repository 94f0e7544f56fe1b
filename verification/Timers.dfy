/** The timers of the event loop (src/EventLoop.cpp): a list sorted by deadline and a handle map,
    which callbacks change while a pass over the due timers is made. */
module Timers {
  import opened Native
  import opened Timevals

  type Handle = nat

  datatype Timer = Timer(when: Timeval, timeout: int)

  /** What a callback may do to the timers; the time is what gettime() answers then. */
  datatype Op = Add(timeout: int, at: Timeval) | Remove(handle: Handle)

  // --- The list ---

  predicate Distinct(list: seq<Handle>) {
    forall i, j :: 0 <= i < j < |list| ==> list[i] != list[j]
  }

  predicate Less(a: Timeval, b: Timeval) {
    !GreaterEqual(a, b)
  }

  predicate Sorted(list: seq<Handle>, timers: map<Handle, Timer>)
    requires forall h :: h in list ==> h in timers
  {
    forall i, j :: 0 <= i < j < |list| ==> GreaterEqual(timers[list[j]].when, timers[list[i]].when)
  }

  /** The list is sorted by deadline, and holds each handle of the map once. */
  ghost predicate Tidy(list: seq<Handle>, timers: map<Handle, Timer>) {
    && (forall h :: h in list <==> h in timers)
    && Distinct(list)
    && Sorted(list, timers)
  }

  /** std::lower_bound on the list. */
  function LowerBound(list: seq<Handle>, timers: map<Handle, Timer>, when: Timeval): (i: nat)
    requires forall h :: h in list ==> h in timers
    requires Sorted(list, timers)
    ensures i <= |list|
    ensures forall j :: 0 <= j < i ==> Less(timers[list[j]].when, when)
    ensures forall j :: i <= j < |list| ==> !Less(timers[list[j]].when, when)
  {
    if list == [] || !Less(timers[list[0]].when, when) then 0
    else 1 + LowerBound(list[1..], timers, when)
  }

  function Without(list: seq<Handle>, i: nat): seq<Handle>
    requires i < |list|
  {
    list[..i] + list[i + 1..]
  }

  lemma RemoveKeepsTidy(list: seq<Handle>, timers: map<Handle, Timer>, i: nat)
    requires Tidy(list, timers) && i < |list|
    ensures Tidy(Without(list, i), timers - {list[i]})
  {
    var rest := Without(list, i);
    forall h | h in timers && h != list[i] ensures h in rest {
      var j :| 0 <= j < |list| && list[j] == h;
      assert rest[if j < i then j else j - 1] == h;
    }
  }

  lemma InsertKeepsSorted(list: seq<Handle>, timers: map<Handle, Timer>, h: Handle, t: Timer, i: nat)
    requires Tidy(list, timers) && h !in timers && i == LowerBound(list, timers, t.when)
    ensures forall g :: g in list[..i] + [h] + list[i..] ==> g in timers[h := t]
    ensures Sorted(list[..i] + [h] + list[i..], timers[h := t])
  {
    var list', timers' := list[..i] + [h] + list[i..], timers[h := t];
    assert forall g :: g in list ==> timers'[g] == timers[g];
    forall a, b | 0 <= a < b < |list'| ensures GreaterEqual(timers'[list'[b]].when, timers'[list'[a]].when) {
      if a < i {
        assert list'[a] == list[a];
      } else if a > i {
        assert list'[a] == list[a - 1];
      }
      if b < i {
        assert list'[b] == list[b];
      } else if b > i {
        assert list'[b] == list[b - 1];
      }
    }
  }

  lemma InsertKeepsDistinct(list: seq<Handle>, h: Handle, i: nat)
    requires i <= |list| && h !in list
    requires Distinct(list)
    ensures forall g :: g in list[..i] + [h] + list[i..] <==> g in list || g == h
    ensures Distinct(list[..i] + [h] + list[i..])
  {
    assert list == list[..i] + list[i..];
    assert forall g :: g in list[..i] + [h] + list[i..] <==> g in list[..i] + list[i..] || g == h;
  }

  lemma InsertKeepsTidy(list: seq<Handle>, timers: map<Handle, Timer>, h: Handle, t: Timer)
    requires Tidy(list, timers) && h !in timers
    ensures var i := LowerBound(list, timers, t.when);
      Tidy(list[..i] + [h] + list[i..], timers[h := t])
  {
    var i := LowerBound(list, timers, t.when);
    InsertKeepsSorted(list, timers, h, t, i);
    InsertKeepsDistinct(list, h, i);
  }

  // --- What one pass calls ---

  /** The timers that are due, in list order. */
  function Due(list: seq<Handle>, timers: map<Handle, Timer>, now: Timeval): seq<Handle>
    requires forall h :: h in list ==> h in timers
  {
    if list == [] then []
    else (if GreaterEqual(now, timers[list[0]].when) then [list[0]] else []) + Due(list[1..], timers, now)
  }

  function Removed(ops: seq<Op>): set<Handle> {
    set op | op in ops && op.Remove? :: op.handle
  }

  /** Those of the due timers that get called, when the n-th callback does script(n) and the
      given ones are removed already. */
  function Called(due: seq<Handle>, script: nat -> seq<Op>, n: nat, removed: set<Handle>): seq<Handle> {
    if due == [] then []
    else if due[0] in removed then Called(due[1..], script, n, removed)
    else [due[0]] + Called(due[1..], script, n + 1, removed + Removed(script(n)))
  }

  /** None of the m callbacks from the n-th on removes h. */
  predicate NoneRemoves(script: nat -> seq<Op>, n: nat, m: nat, h: Handle) {
    forall k :: n <= k < n + m ==> h !in Removed(script(k))
  }

  /** A due timer is called exactly if no callback before it has removed it. */
  lemma {:induction false} CalledIff(due: seq<Handle>, script: nat -> seq<Op>, n: nat, removed: set<Handle>, j: nat)
    requires j < |due| && Distinct(due)
    ensures due[j] in Called(due, script, n, removed) <==>
            due[j] !in removed && NoneRemoves(script, n, |Called(due[..j], script, n, removed)|, due[j])
  {
    var removed' := removed + Removed(script(n));
    if j == 0 {
      CalledAreDue(due[1..], script, n, removed);
    } else {
      assert due[..j][1..] == due[1..][..j - 1];
      if due[0] in removed {
        CalledIff(due[1..], script, n, removed, j - 1);
      } else {
        CalledIff(due[1..], script, n + 1, removed', j - 1);
        assert Called(due, script, n, removed) == [due[0]] + Called(due[1..], script, n + 1, removed');
        assert |Called(due[..j], script, n, removed)| == 1 + |Called(due[1..][..j - 1], script, n + 1, removed')|;
      }
    }
  }

  lemma {:induction false} CalledAreDue(due: seq<Handle>, script: nat -> seq<Op>, n: nat, removed: set<Handle>)
    ensures forall h :: h in Called(due, script, n, removed) ==> h in due && h !in removed
  {
    if due != [] {
      if due[0] in removed {
        CalledAreDue(due[1..], script, n, removed);
      } else {
        CalledAreDue(due[1..], script, n + 1, removed + Removed(script(n)));
      }
    }
  }

  /** No timer is called twice, and they are called in list order. */
  lemma {:induction false} CalledOnceInOrder(due: seq<Handle>, script: nat -> seq<Op>, n: nat, removed: set<Handle>)
    requires Distinct(due)
    ensures IsSubsequence(Called(due, script, n, removed), due)
    ensures Distinct(Called(due, script, n, removed))
  {
    if due != [] {
      var c := Called(due, script, n, removed);
      CalledAreDue(due, script, n, removed);
      if due[0] in removed {
        CalledOnceInOrder(due[1..], script, n, removed);
        assert c != [] ==> c[0] in c;
      } else {
        var rest := Called(due[1..], script, n + 1, removed + Removed(script(n)));
        CalledOnceInOrder(due[1..], script, n + 1, removed + Removed(script(n)));
        CalledAreDue(due[1..], script, n + 1, removed + Removed(script(n)));
        assert c == [due[0]] + rest && c[1..] == rest;
        assert due[0] !in due[1..] && due[0] !in rest;
      }
    }
  }

  predicate IsSubsequence(a: seq<Handle>, b: seq<Handle>) {
    if a == [] then true
    else if b == [] then false
    else if a[0] == b[0] then IsSubsequence(a[1..], b[1..])
    else IsSubsequence(a, b[1..])
  }

  lemma {:induction false} DueIff(list: seq<Handle>, timers: map<Handle, Timer>, now: Timeval)
    requires (forall h :: h in list ==> h in timers) && Distinct(list)
    ensures forall h :: h in Due(list, timers, now) <==> h in list && GreaterEqual(now, timers[h].when)
    ensures Distinct(Due(list, timers, now)) && IsSubsequence(Due(list, timers, now), list)
  {
    if list != [] {
      DueIff(list[1..], timers, now);
      var due, rest := Due(list, timers, now), Due(list[1..], timers, now);
      assert list == [list[0]] + list[1..] && list[0] !in list[1..];
      if GreaterEqual(now, timers[list[0]].when) {
        assert due == [list[0]] + rest && due[1..] == rest;
      } else {
        assert due == rest;
        assert due != [] ==> due[0] in due;
      }
    }
  }

  /** What one pass calls is, each once and in the order of their deadlines, the timers due; and
      the j-th of these is called exactly if no callback made before its turn removed it. */
  lemma PassCallsExactly(list: seq<Handle>, timers: map<Handle, Timer>, now: Timeval, script: nat -> seq<Op>, j: nat)
    requires Tidy(list, timers) && j < |Due(list, timers, now)|
    ensures var due := Due(list, timers, now);
      var called := Called(due, script, 0, {});
      && Distinct(called) && IsSubsequence(called, due) && IsSubsequence(due, list)
      && (due[j] in called <==> NoneRemoves(script, 0, |Called(due[..j], script, 0, {})|, due[j]))
    ensures forall h :: h in Due(list, timers, now) <==> h in timers && GreaterEqual(now, timers[h].when)
  {
    DueIff(list, timers, now);
    CalledOnceInOrder(Due(list, timers, now), script, 0, {});
    CalledIff(Due(list, timers, now), script, 0, {}, j);
  }

  /** A timer that no callback removes is called exactly if it is due. */
  lemma CalledIffDue(list: seq<Handle>, timers: map<Handle, Timer>, now: Timeval, script: nat -> seq<Op>, h: Handle)
    requires Tidy(list, timers) && h in timers && forall k: nat :: h !in Removed(script(k))
    ensures h in Called(Due(list, timers, now), script, 0, {}) <==> GreaterEqual(now, timers[h].when)
  {
    var due := Due(list, timers, now);
    DueIff(list, timers, now);
    CalledAreDue(due, script, 0, {});
    if h in due {
      var j :| 0 <= j < |due| && due[j] == h;
      CalledIff(due, script, 0, {}, j);
    }
  }

  // --- The event loop ---

  function HandlesOf(called: seq<Handle>): set<Handle> {
    set h | h in called
  }

  /** What a timer becomes that was due and is fired now: its deadline has moved by its timeout,
      or to now if that is later, to the millisecond; its period is the same. */
  ghost predicate MovesOn(t: Timer, now: Timeval, t': Timer) {
    t'.timeout == t.timeout &&
    (Normal(t.when) && Normal(now) && GreaterEqual(now, t.when) && Millis(now) - Millis(t.when) < TWO_31 ==>
      && Normal(t'.when) && Millis(t'.when) == Max(Millis(t.when) + t.timeout, Millis(now))
      && Micros(t'.when) % 1000 == Micros(now) % 1000)
  }

  lemma RearmedMovesOn(t: Timer, now: Timeval)
    ensures MovesOn(t, now, Timer(Rearmed(t.when, now, t.timeout), t.timeout))
  {
    if Normal(t.when) && Normal(now) && GreaterEqual(now, t.when) && Millis(now) - Millis(t.when) < TWO_31 {
      RearmedDeadline(t.when, now, t.timeout);
    }
  }

  function RearmedTimer(t: Timer, now: Timeval): (t': Timer)
    ensures MovesOn(t, now, t')
  {
    RearmedMovesOn(t, now);
    Timer(Rearmed(t.when, now, t.timeout), t.timeout)
  }

  // --- What callbacks do to the timers ---

  /** How many of the first n operations add a timer. */
  function Adds(ops: seq<Op>, n: nat): nat
    requires n <= |ops|
  {
    if n == 0 then 0 else Adds(ops, n - 1) + if ops[n - 1].Add? then 1 else 0
  }

  /** Everything the first n callbacks do, in order. */
  function Done(script: nat -> seq<Op>, n: nat): seq<Op> {
    if n == 0 then [] else Done(script, n - 1) + script(n - 1)
  }

  /** The timer the j-th operation has added, under the next handle, is there exactly if no later
      one has removed it, with its deadline and period. */
  ghost predicate IsAdded(ops: seq<Op>, j: nat, last: Handle, timers: map<Handle, Timer>)
    requires j < |ops| && ops[j].Add?
  {
    var h := last + Adds(ops, j) + 1;
    && (h in timers <==> Remove(h) !in ops[j + 1..])
    && (h in timers ==> timers[h] == Timer(Plus(ops[j].at, ops[j].timeout), ops[j].timeout))
  }

  /** What operations make of timers whose handles go up to last: those not removed are left, and
      those added and not removed later are there; no others are. */
  ghost predicate Changed(olds: map<Handle, Timer>, last: Handle, ops: seq<Op>, timers: map<Handle, Timer>,
                          next: Handle)
  {
    && next == last + Adds(ops, |ops|)
    && (forall h :: h <= last ==> (h in timers <==> h in olds && Remove(h) !in ops))
    && (forall j :: 0 <= j < |ops| && ops[j].Add? ==> IsAdded(ops, j, last, timers))
    && (forall h :: h in timers ==> h <= next)
  }

  lemma {:induction false} AddsOfStart(ops: seq<Op>, op: Op, n: nat)
    requires n <= |ops|
    ensures Adds(ops + [op], n) == Adds(ops, n)
  {
    if n > 0 {
      AddsOfStart(ops, op, n - 1);
    }
  }

  lemma {:induction false} AddsBelow(ops: seq<Op>, j: nat, n: nat)
    requires j < n <= |ops| && ops[j].Add?
    ensures Adds(ops, j) < Adds(ops, n)
  {
    if j < n - 1 {
      AddsBelow(ops, j, n - 1);
    }
  }

  /** One more operation does nothing to the timer the j-th has added, unless it removes it. */
  lemma AddedStays(ops: seq<Op>, op: Op, j: nat, last: Handle, timers: map<Handle, Timer>,
                   timers': map<Handle, Timer>)
    requires j < |ops| && ops[j].Add? && IsAdded(ops, j, last, timers)
    requires var h := last + Adds(ops, j) + 1;
      && (h in timers' <==> h in timers && op != Remove(h))
      && (h in timers' ==> timers'[h] == timers[h])
    ensures IsAdded(ops + [op], j, last, timers')
  {
    AddsOfStart(ops, op, j);
    assert (ops + [op])[j + 1..] == ops[j + 1..] + [op];
  }

  lemma ChangedByAdd(olds: map<Handle, Timer>, last: Handle, ops: seq<Op>, timers: map<Handle, Timer>, next: Handle,
                     op: Op)
    requires Changed(olds, last, ops, timers, next) && op.Add?
    ensures Changed(olds, last, ops + [op], timers[next + 1 := Timer(Plus(op.at, op.timeout), op.timeout)], next + 1)
  {
    var timers' := timers[next + 1 := Timer(Plus(op.at, op.timeout), op.timeout)];
    AddsOfStart(ops, op, |ops|);
    forall j | 0 <= j < |ops + [op]| && (ops + [op])[j].Add? ensures IsAdded(ops + [op], j, last, timers') {
      if j < |ops| {
        AddsBelow(ops, j, |ops|);
        AddedStays(ops, op, j, last, timers, timers');
      } else {
        assert (ops + [op])[j + 1..] == [];
      }
    }
  }

  lemma ChangedByRemove(olds: map<Handle, Timer>, last: Handle, ops: seq<Op>, timers: map<Handle, Timer>,
                        next: Handle, op: Op)
    requires Changed(olds, last, ops, timers, next) && op.Remove?
    ensures Changed(olds, last, ops + [op], timers - {op.handle}, next)
  {
    AddsOfStart(ops, op, |ops|);
    forall j | 0 <= j < |ops + [op]| && (ops + [op])[j].Add?
      ensures IsAdded(ops + [op], j, last, timers - {op.handle})
    {
      AddedStays(ops, op, j, last, timers, timers - {op.handle});
    }
  }

  /** Rearming a timer that was there before does not matter. */
  lemma ChangedByRearming(olds: map<Handle, Timer>, last: Handle, ops: seq<Op>, timers: map<Handle, Timer>,
                          next: Handle, h: Handle, t: Timer)
    requires Changed(olds, last, ops, timers, next) && h <= last && h in timers
    ensures Changed(olds, last, ops, timers[h := t], next)
  {
  }

  lemma RemovedOfSum(a: seq<Op>, b: seq<Op>)
    ensures Removed(a + b) == Removed(a) + Removed(b)
  {
    assert forall op :: op in a + b <==> op in a || op in b;
  }

  lemma InRemoved(ops: seq<Op>, h: Handle)
    ensures h in Removed(ops) <==> Remove(h) in ops
  {
  }

  class EventLoop {
    var timerData: seq<Handle>
    var timers: map<Handle, Timer>
    var nextTimerHandle: Handle

    ghost predicate Valid()
      reads this
    {
      Tidy(timerData, timers)
    }

    /** No handle of a timer is going to be given out again. */
    ghost predicate HandlesUsed()
      reads this
    {
      forall h :: h in timers ==> h <= nextTimerHandle
    }

    /** Of the old timers that are left those called are rearmed, the others as they were. */
    ghost predicate CalledAreRearmed(olds: map<Handle, Timer>, called: set<Handle>, now: Timeval, last: Handle)
      reads this
    {
      forall h :: h <= last && h in timers && h in olds ==>
        if h in called then timers[h] == RearmedTimer(olds[h], now) && MovesOn(olds[h], now, timers[h])
        else timers[h] == olds[h]
    }

    constructor ()
      ensures Valid() && HandlesUsed() && timers == map[]
    {
      timerData, timers, nextTimerHandle := [], map[], 0;
    }

    method AddTimer(timeout: int, now: Timeval) returns (handle: Handle)
      requires Valid()
      modifies this
      ensures Valid() && handle !in old(timers) && handle > old(nextTimerHandle)
      ensures timers == old(timers)[handle := Timer(Plus(now, timeout), timeout)]
      ensures nextTimerHandle == handle && forall h :: old(nextTimerHandle) < h < handle ==> h in old(timers)
    {
      nextTimerHandle := nextTimerHandle + 1;
      handle := nextTimerHandle;
      while handle in timers
        invariant nextTimerHandle == handle > old(nextTimerHandle)
        invariant forall h :: old(nextTimerHandle) < h < handle ==> h in timers
        invariant timers == old(timers) && timerData == old(timerData)
        decreases |set h | h in timers && h >= handle|
      {
        FewerAbove(timers.Keys, handle);
        nextTimerHandle := nextTimerHandle + 1;
        handle := nextTimerHandle;
      }
      var t := Timer(Plus(now, timeout), timeout);
      InsertKeepsTidy(timerData, timers, handle, t);
      var i := LowerBound(timerData, timers, t.when);
      timers := timers[handle := t];
      timerData := timerData[..i] + [handle] + timerData[i..];
    }

    /** The position of a handle in the list, or the length. */
    method Find(handle: Handle) returns (i: nat)
      ensures i <= |timerData| && (i < |timerData| ==> timerData[i] == handle)
      ensures i == |timerData| ==> handle !in timerData
    {
      i := 0;
      while i < |timerData|
        invariant i <= |timerData| && forall j :: 0 <= j < i ==> timerData[j] != handle
      {
        if timerData[i] == handle {
          return;
        }
        i := i + 1;
      }
    }

    method RemoveTimer(handle: Handle)
      requires Valid()
      modifies `timerData, `timers
      ensures Valid() && timers == old(timers) - {handle}
    {
      if handle !in timers {
        assert timers - {handle} == timers;
        return;
      }
      var i := Find(handle);
      // the assertions of the source
      assert i < |timerData| && timerData[i] == handle;
      RemoveKeepsTidy(timerData, timers, i);
      timers := timers - {handle};
      timerData := Without(timerData, i);
    }

    method ReinsertTimer(handle: Handle, now: Timeval) returns (found: bool)
      requires Valid()
      modifies `timerData, `timers
      ensures Valid() && found == (handle in old(timers))
      ensures found ==> handle in timers && MovesOn(old(timers)[handle], now, timers[handle])
      ensures timers == if found
                        then var t := old(timers)[handle];
                          old(timers)[handle := RearmedTimer(t, now)]
                        else old(timers)
    {
      var i := Find(handle);
      if i == |timerData| {
        return false;
      }
      var t := timers[handle];
      var t' := RearmedTimer(t, now);
      RemoveKeepsTidy(timerData, timers, i);
      var rest, others := Without(timerData, i), timers - {handle};
      InsertKeepsTidy(rest, others, handle, t');
      var k := LowerBound(rest, others, t'.when);
      assert others[handle := t'] == timers[handle := t'];
      timers := timers[handle := t'];
      timerData := rest[..k] + [handle] + rest[k..];
      found := true;
    }

    /** The state of the timers, after these operations. */
    ghost predicate Ran(olds: map<Handle, Timer>, last: Handle, ops: seq<Op>)
      reads this
    {
      Valid() && Changed(olds, last, ops, timers, nextTimerHandle)
    }

    method Do(ghost olds: map<Handle, Timer>, ghost last: Handle, ghost ops: seq<Op>, op: Op)
      requires Ran(olds, last, ops)
      modifies this
      ensures Ran(olds, last, ops + [op])
      ensures forall h :: h <= last && h in timers ==> h in old(timers) && timers[h] == old(timers)[h]
    {
      match op {
        case Add(timeout, at) =>
          ChangedByAdd(olds, last, ops, timers, nextTimerHandle, op);
          var _ := AddTimer(timeout, at);
        case Remove(handle) =>
          ChangedByRemove(olds, last, ops, timers, nextTimerHandle, op);
          RemoveTimer(handle);
      }
    }

    /** A callback does what its script says. */
    method Callback(ghost olds: map<Handle, Timer>, ghost last: Handle, ghost before: seq<Op>, ops: seq<Op>)
      requires Ran(olds, last, before)
      modifies this
      ensures Ran(olds, last, before + ops)
      ensures forall h :: h <= last && h in timers ==> h in old(timers) && timers[h] == old(timers)[h]
    {
      assert before + ops[..0] == before;
      for i := 0 to |ops|
        invariant Ran(olds, last, before + ops[..i])
        invariant forall h :: h <= last && h in timers ==> h in old(timers) && timers[h] == old(timers)[h]
      {
        Do(olds, last, before + ops[..i], ops[i]);
        assert before + ops[..i + 1] == (before + ops[..i]) + [ops[i]];
      }
      assert ops[..|ops|] == ops;
    }

    /** Fires a timer that is there, after n callbacks, and says what that means for the pass. */
    method FireListed(ghost olds: map<Handle, Timer>, handle: Handle, now: Timeval, script: nat -> seq<Op>, n: nat,
                      ghost called: set<Handle>, ghost last: Handle)
      requires Ran(olds, last, Done(script, n)) && handle in timers && handle <= last && handle !in called
      requires CalledAreRearmed(olds, called, now, last)
      modifies this
      ensures Ran(olds, last, Done(script, n + 1)) && CalledAreRearmed(olds, called + {handle}, now, last)
    {
      ghost var before := Done(script, n);
      ChangedByRearming(olds, last, before, timers, nextTimerHandle, handle, RearmedTimer(timers[handle], now));
      var found := ReinsertTimer(handle, now);
      if found {
        Callback(olds, last, before, script(n));
      }
    }

    /** Where a pass over the list is, at its i-th timer. */
    ghost predicate OnPass(list: seq<Handle>, olds: map<Handle, Timer>, now: Timeval, script: nat -> seq<Op>,
                           last: Handle, all: seq<Handle>, called: seq<Handle>, i: nat)
      requires Tidy(list, olds)
      reads this
    {
      && i <= |list| && (i < |list| ==> list[i] in timers)
      && Ran(olds, last, Done(script, |called|)) && CalledAreRearmed(olds, HandlesOf(called), now, last)
      && (forall j :: i <= j < |list| ==> list[j] !in HandlesOf(called))
      && all == called + Rest(list, olds, now, script, |called|, i)
    }

    /** Finds the next timer that is left. */
    method NextLeft(list: seq<Handle>, ghost olds: map<Handle, Timer>, ghost last: Handle, ghost ops: seq<Op>, i: nat)
      returns (k: nat)
      requires i <= |list| && Ran(olds, last, ops) && forall j :: 0 <= j < |list| ==> list[j] in olds && list[j] <= last
      ensures i <= k <= |list| && (k < |list| ==> list[k] in timers)
      ensures forall j :: i <= j < k ==> list[j] in Removed(ops)
    {
      k := SkipRemoved(list, i);
      forall j | i <= j < k ensures list[j] in Removed(ops) {
        InRemoved(ops, list[j]);
      }
    }

    /** Fires the i-th timer of the list, and finds the next one that is left. */
    method FireAt(list: seq<Handle>, olds: map<Handle, Timer>, now: Timeval, script: nat -> seq<Op>,
                  ghost last: Handle, called: seq<Handle>, i: nat)
      returns (called': seq<Handle>, k: nat)
      requires Tidy(list, olds) && (forall h :: h in olds ==> h <= last) && i < |list| && list[i] in timers
      requires Ran(olds, last, Done(script, |called|)) && CalledAreRearmed(olds, HandlesOf(called), now, last)
      requires forall j :: i <= j < |list| ==> list[j] !in HandlesOf(called)
      modifies this
      ensures i < k <= |list| && (k < |list| ==> list[k] in timers) && called' == called + [list[i]]
      ensures Ran(olds, last, Done(script, |called'|)) && CalledAreRearmed(olds, HandlesOf(called'), now, last)
      ensures forall j :: k <= j < |list| ==> list[j] !in HandlesOf(called')
      ensures list[i] !in Removed(Done(script, |called|))
      ensures forall j :: i < j < k ==> list[j] in Removed(Done(script, |called'|))
    {
      OldIsOld(list, olds, last);
      InRemoved(Done(script, |called|), list[i]);
      FireListed(olds, list[i], now, script, |called|, HandlesOf(called), last);
      k := NextLeft(list, olds, last, Done(script, |called| + 1), i + 1);
      NoLongerListed(list, called, i, k);
      called' := called + [list[i]];
    }

    /** One round of the pass. */
    method Round(list: seq<Handle>, olds: map<Handle, Timer>, now: Timeval, script: nat -> seq<Op>, ghost last: Handle,
                 ghost all: seq<Handle>, called: seq<Handle>, i: nat)
      returns (called': seq<Handle>, k: nat)
      requires Tidy(list, olds) && (forall h :: h in olds ==> h <= last)
      requires OnPass(list, olds, now, script, last, all, called, i)
      requires i < |list| && GreaterEqual(now, olds[list[i]].when)
      modifies this
      ensures i < k <= |list| && called' == called + [list[i]]
      ensures OnPass(list, olds, now, script, last, all, called', k)
    {
      called', k := FireAt(list, olds, now, script, last, called, i);
      RestGoesOn(list, olds, now, script, called, called', i, k);
    }

    /** The loop over the copy. */
    method Walk(now: Timeval, script: nat -> seq<Op>) returns (called: seq<Handle>)
      requires Valid() && HandlesUsed()
      modifies this
      ensures Valid() && HandlesUsed()
      ensures Changed(old(timers), old(nextTimerHandle), Done(script, |called|), timers, nextTimerHandle)
      ensures called == Still(old(timerData), old(timers), now, script, 0, {}, 0)
      ensures CalledAreRearmed(old(timers), HandlesOf(called), now, old(nextTimerHandle))
    {
      var copy, olds := timerData, timers;
      called := [];
      ghost var last, all := nextTimerHandle, Still(copy, olds, now, script, 0, {}, 0);
      var i := 0;
      NothingDone(copy, olds, now, script);
      while i < |copy| && GreaterEqual(now, olds[copy[i]].when)
        invariant 0 <= i <= |copy| && OnPass(copy, olds, now, script, last, all, called, i)
      {
        called, i := Round(copy, olds, now, script, last, all, called, i);
      }
    }

    /** One pass over the timers, as run() makes it after select() has returned: it calls those
        that are due now and not removed by an earlier callback, each once, in list order. */
    method Pass(now: Timeval, script: nat -> seq<Op>) returns (called: seq<Handle>)
      requires Valid() && HandlesUsed()
      modifies this
      ensures Valid() && HandlesUsed()
      ensures Changed(old(timers), old(nextTimerHandle), Done(script, |called|), timers, nextTimerHandle)
      ensures called == Called(Due(old(timerData), old(timers), now), script, 0, {})
      ensures CalledAreRearmed(old(timers), HandlesOf(called), now, old(nextTimerHandle))
    {
      StillIsCalled(timerData, timers, now, script, 0, {}, 0);
      assert timerData[0..] == timerData;
      called := Walk(now, script);
    }

    /** The next timer of the list that is still there. */
    method SkipRemoved(list: seq<Handle>, i: nat) returns (k: nat)
      requires i <= |list|
      ensures i <= k <= |list| && (k < |list| ==> list[k] in timers)
      ensures forall j :: i <= j < k ==> list[j] !in timers
    {
      k := i;
      while k < |list| && list[k] !in timers
        invariant i <= k <= |list| && forall j :: i <= j < k ==> list[j] !in timers
      {
        k := k + 1;
      }
    }
  }

  /** The calls still to come from the i-th timer of the list on. */
  ghost function Still(list: seq<Handle>, timers: map<Handle, Timer>, now: Timeval, script: nat -> seq<Op>,
                       n: nat, removed: set<Handle>, i: nat): seq<Handle>
    requires Tidy(list, timers) && i <= |list|
    decreases |list| - i
  {
    if i == |list| || !GreaterEqual(now, timers[list[i]].when) then []
    else if list[i] in removed then Still(list, timers, now, script, n, removed, i + 1)
    else [list[i]] + Still(list, timers, now, script, n + 1, removed + Removed(script(n)), i + 1)
  }

  lemma {:induction false} StillIsCalled(list: seq<Handle>, timers: map<Handle, Timer>, now: Timeval,
                                         script: nat -> seq<Op>, n: nat, removed: set<Handle>, i: nat)
    requires Tidy(list, timers) && i <= |list|
    ensures Still(list, timers, now, script, n, removed, i) == Called(Due(list[i..], timers, now), script, n, removed)
    decreases |list| - i
  {
    if i < |list| {
      assert list[i..][1..] == list[i + 1..];
      if !GreaterEqual(now, timers[list[i]].when) {
        NoneDue(list, timers, now, i);
      } else {
        var due := Due(list[i..], timers, now);
        assert due == [list[i]] + Due(list[i + 1..], timers, now);
        assert due[1..] == Due(list[i + 1..], timers, now);
        StillIsCalled(list, timers, now, script, n, removed, i + 1);
        StillIsCalled(list, timers, now, script, n + 1, removed + Removed(script(n)), i + 1);
      }
    }
  }

  lemma {:induction false} StillSkips(list: seq<Handle>, timers: map<Handle, Timer>, now: Timeval,
                                      script: nat -> seq<Op>, n: nat, removed: set<Handle>, i: nat, k: nat)
    requires Tidy(list, timers) && i <= k <= |list| && forall j :: i <= j < k ==> list[j] in removed
    ensures Still(list, timers, now, script, n, removed, i) == Still(list, timers, now, script, n, removed, k)
    decreases k - i
  {
    if i < k {
      StillSkips(list, timers, now, script, n, removed, i + 1, k);
      assert k < |list| ==> GreaterEqual(timers[list[k]].when, timers[list[i]].when);
      if !GreaterEqual(now, timers[list[i]].when) {
        assert k < |list| ==> !GreaterEqual(now, timers[list[k]].when);
      }
    }
  }

  /** The calls still to come when n callbacks have been made. */
  ghost function Rest(list: seq<Handle>, timers: map<Handle, Timer>, now: Timeval, script: nat -> seq<Op>, n: nat,
                      i: nat): seq<Handle>
    requires Tidy(list, timers) && i <= |list|
  {
    Still(list, timers, now, script, n, Removed(Done(script, n)), i)
  }

  lemma NoLongerListed(list: seq<Handle>, called: seq<Handle>, i: nat, k: nat)
    requires Distinct(list) && i < k <= |list| && forall j :: i <= j < |list| ==> list[j] !in HandlesOf(called)
    ensures HandlesOf(called + [list[i]]) == HandlesOf(called) + {list[i]}
    ensures forall j :: k <= j < |list| ==> list[j] !in HandlesOf(called + [list[i]])
  {
  }

  lemma OldIsOld(list: seq<Handle>, olds: map<Handle, Timer>, last: Handle)
    requires Tidy(list, olds) && forall h :: h in olds ==> h <= last
    ensures forall j :: 0 <= j < |list| ==> list[j] in olds && list[j] <= last
  {
    forall j | 0 <= j < |list| ensures list[j] in olds {
      assert list[j] in list;
    }
  }

  lemma StillGoesOn(list: seq<Handle>, timers: map<Handle, Timer>, now: Timeval, script: nat -> seq<Op>,
                    called: seq<Handle>, removed: set<Handle>, removed': set<Handle>, i: nat, k: nat)
    requires Tidy(list, timers) && i < k <= |list| && GreaterEqual(now, timers[list[i]].when)
    requires list[i] !in removed && removed' == removed + Removed(script(|called|))
    requires forall j :: i < j < k ==> list[j] in removed'
    ensures called + Still(list, timers, now, script, |called|, removed, i)
         == (called + [list[i]]) + Still(list, timers, now, script, |called| + 1, removed', k)
  {
    var n := |called|;
    StillSkips(list, timers, now, script, n + 1, removed', i + 1, k);
    StillHere(list, timers, now, script, n, removed, i);
    PutBehind(called, list[i], Still(list, timers, now, script, n + 1, removed', k));
  }

  lemma RestGoesOn(list: seq<Handle>, timers: map<Handle, Timer>, now: Timeval, script: nat -> seq<Op>,
                   called: seq<Handle>, called': seq<Handle>, i: nat, k: nat)
    requires Tidy(list, timers) && i < k <= |list| && GreaterEqual(now, timers[list[i]].when)
    requires called' == called + [list[i]] && list[i] !in Removed(Done(script, |called|))
    requires forall j :: i < j < k ==> list[j] in Removed(Done(script, |called'|))
    ensures called + Rest(list, timers, now, script, |called|, i)
         == called' + Rest(list, timers, now, script, |called'|, k)
  {
    RemovedOfSum(Done(script, |called|), script(|called|));
    StillGoesOn(list, timers, now, script, called, Removed(Done(script, |called|)),
                Removed(Done(script, |called| + 1)), i, k);
  }

  lemma StillHere(list: seq<Handle>, timers: map<Handle, Timer>, now: Timeval, script: nat -> seq<Op>, n: nat,
                  removed: set<Handle>, i: nat)
    requires Tidy(list, timers) && i < |list| && GreaterEqual(now, timers[list[i]].when) && list[i] !in removed
    ensures Still(list, timers, now, script, n, removed, i)
         == [list[i]] + Still(list, timers, now, script, n + 1, removed + Removed(script(n)), i + 1)
  {
  }

  lemma PutBehind(a: seq<Handle>, h: Handle, b: seq<Handle>)
    ensures a + ([h] + b) == (a + [h]) + b
  {
  }

  lemma NothingDone(list: seq<Handle>, timers: map<Handle, Timer>, now: Timeval, script: nat -> seq<Op>)
    requires Tidy(list, timers)
    ensures Rest(list, timers, now, script, 0, 0) == Still(list, timers, now, script, 0, {}, 0)
  {
    assert Removed(Done(script, 0)) == {};
  }

  lemma FewerAbove(used: set<Handle>, handle: Handle)
    requires handle in used
    ensures |set h | h in used && h >= handle + 1| < |set h | h in used && h >= handle|
  {
    assert (set h | h in used && h >= handle) == (set h | h in used && h >= handle + 1) + {handle};
  }

  /** Once a timer is not due, none further down the list is. */
  lemma {:induction false} NoneDue(list: seq<Handle>, timers: map<Handle, Timer>, now: Timeval, i: nat)
    requires Tidy(list, timers) && i <= |list|
    requires i < |list| ==> !GreaterEqual(now, timers[list[i]].when)
    ensures Due(list[i..], timers, now) == []
    decreases |list| - i
  {
    if i < |list| {
      assert list[i..][1..] == list[i + 1..];
      NoneDue(list, timers, now, i + 1);
    }
  }

  // --- A repeating timer, pass after pass ---

  /** No callback of any of the passes removes the timer. */
  ghost predicate NeverRemoved(scripts: nat -> nat -> seq<Op>, h: Handle) {
    forall n: nat, k: nat {:trigger scripts(n)(k)} :: Remove(h) !in scripts(n)(k)
  }

  /** Those of the times of the passes at which a timer of this deadline and period fires. */
  function Firings(t: Timer, nows: seq<Timeval>, n: nat): seq<Timeval>
    requires n <= |nows|
  {
    if n == 0 then []
    else
      var before := Firings(t, nows, n - 1);
      if GreaterEqual(nows[n - 1], DeadlineAfter(t.when, t.timeout, before)) then before + [nows[n - 1]] else before
  }

  method PassOnce(loop: EventLoop, h: Handle, now: Timeval, script: nat -> seq<Op>) returns (called: bool)
    requires loop.Valid() && loop.HandlesUsed() && h in loop.timers && forall k: nat :: Remove(h) !in script(k)
    modifies loop
    ensures loop.Valid() && loop.HandlesUsed() && h in loop.timers
    ensures called <==> GreaterEqual(now, old(loop.timers)[h].when)
    ensures loop.timers[h] == if called then RearmedTimer(old(loop.timers)[h], now) else old(loop.timers)[h]
  {
    forall k: nat ensures h !in Removed(script(k)) {
      InRemoved(script(k), h);
    }
    CalledIffDue(loop.timerData, loop.timers, now, script, h);
    var handles := loop.Pass(now, script);
    NotDone(script, |handles|, h);
    called := h in handles;
  }

  lemma {:induction false} NotDone(script: nat -> seq<Op>, n: nat, h: Handle)
    requires forall k: nat :: Remove(h) !in script(k)
    ensures Remove(h) !in Done(script, n)
  {
    if n > 0 {
      NotDone(script, n - 1, h);
    }
  }

  /** The timer after the first n passes. */
  ghost predicate OnSchedule(t: Timer, nows: seq<Timeval>, n: nat, calls: nat, t': Timer)
    requires n <= |nows|
  {
    var firings := Firings(t, nows, n);
    calls == |firings| && t' == Timer(DeadlineAfter(t.when, t.timeout, firings), t.timeout)
  }

  lemma NextOnSchedule(t: Timer, nows: seq<Timeval>, n: nat, calls: nat, t': Timer)
    requires n < |nows| && OnSchedule(t, nows, n, calls, t')
    ensures if GreaterEqual(nows[n], t'.when) then OnSchedule(t, nows, n + 1, calls + 1, RearmedTimer(t', nows[n]))
            else OnSchedule(t, nows, n + 1, calls, t')
  {
    var before := Firings(t, nows, n);
    assert (before + [nows[n]])[..|before|] == before;
  }

  /** A repeating timer over any passes, whatever their callbacks do to the others: it is called
      in a pass exactly if it is due then. Its deadline is never before that of its schedule, and
      is on it, to the millisecond, exactly if no call was later than its period. */
  method KeepSchedule(loop: EventLoop, h: Handle, nows: seq<Timeval>, scripts: nat -> nat -> seq<Op>)
    returns (calls: nat)
    requires loop.Valid() && loop.HandlesUsed() && h in loop.timers && NeverRemoved(scripts, h)
    modifies loop
    ensures loop.Valid() && loop.HandlesUsed() && h in loop.timers
    ensures OnSchedule(old(loop.timers)[h], nows, |nows|, calls, loop.timers[h])
    ensures var t, firings := old(loop.timers)[h], Firings(old(loop.timers)[h], nows, |nows|);
      Normal(t.when) && t.timeout >= 0 && FiresWhenDue(t.when, t.timeout, firings) ==>
        && Millis(loop.timers[h].when) >= Millis(t.when) + calls * t.timeout
        && (Millis(loop.timers[h].when) == Millis(t.when) + calls * t.timeout <==>
              NeverLate(t.when, t.timeout, firings))
  {
    calls := 0;
    ghost var t := loop.timers[h];
    for n := 0 to |nows|
      invariant loop.Valid() && loop.HandlesUsed() && h in loop.timers
      invariant OnSchedule(t, nows, n, calls, loop.timers[h])
    {
      NextOnSchedule(t, nows, n, calls, loop.timers[h]);
      var called := PassOnce(loop, h, nows[n], scripts(n));
      if called {
        calls := calls + 1;
      }
    }
    ghost var firings := Firings(t, nows, |nows|);
    if Normal(t.when) && t.timeout >= 0 && FiresWhenDue(t.when, t.timeout, firings) {
      NoDriftIff(t.when, t.timeout, firings);
    }
  }
}
