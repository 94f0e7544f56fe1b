/** The read/write lock (src/ReadWriteLock.cpp) as a system of steps: each is what a thread does
    while it has the mutex, and the scheduler picks the steps. */
module ReadWriteLock {
  import opened Options

  type ThreadId = nat

  datatype LockType = Read | Write

  /** A waiting thread is asleep on the condition or was woken from it and waits for the mutex. */
  datatype Waiter = Waiter(thread: ThreadId, kind: LockType)

  /** count and write are mCount and mWrite; readers and writer say who was granted what. */
  datatype State = State(
    count: int, write: bool,
    asleep: set<Waiter>, woken: set<Waiter>,
    readers: multiset<ThreadId>, writer: Option<ThreadId>)

  const FREE := State(0, false, {}, {}, multiset{}, None)

  datatype Event =
    | Lock(waiter: Waiter)        // a call of lock(), up to its return or its first wait
    | Resume(waiter: Waiter)      // a wait() that was woken returns
    | WakeSpuriously(waiter: Waiter)
    | TimeOut(waiter: Waiter)     // a wait() that was not woken in time returns
    | TryLock(waiter: Waiter)
    | Unlock(thread: ThreadId)

  predicate Waits(s: State, t: ThreadId) {
    exists k :: Waiter(t, k) in s.asleep + s.woken
  }

  predicate Holds(s: State, t: ThreadId) {
    t in s.readers || s.writer == Some(t)
  }

  ghost predicate Enabled(s: State, e: Event) {
    match e
    case Lock(w) => !Waits(s, w.thread)
    case Resume(w) => w in s.woken
    case WakeSpuriously(w) => w in s.asleep
    case TimeOut(w) => w in s.asleep
    case TryLock(w) => !Waits(s, w.thread)
    case Unlock(t) => Holds(s, t) && !Waits(s, t)
  }

  predicate Busy(s: State, kind: LockType) {
    match kind
    case Read => s.write
    case Write => s.count != 0
  }

  function Granted(s: State, w: Waiter): State {
    match w.kind
    case Read => s.(count := s.count + 1, readers := s.readers + multiset{w.thread})
    case Write => s.(count := 1, write := true, writer := Some(w.thread))
  }

  /** One test of the wait loop. */
  function Tested(s: State, w: Waiter): State {
    if Busy(s, w.kind) then s.(asleep := s.asleep + {w}) else Granted(s, w)
  }

  function Released(s: State, t: ThreadId): State {
    var s0 := if t in s.readers then s.(readers := s.readers - multiset{t}) else s.(writer := None);
    if s.count > 1 then s0.(count := s.count - 1)
    else s0.(count := s.count - 1, write := false, asleep := {}, woken := s.woken + s.asleep)
  }

  function Next(s: State, e: Event): State {
    match e
    case Lock(w) => Tested(s, w)
    case Resume(w) => Tested(s.(woken := s.woken - {w}), w)
    case WakeSpuriously(w) => s.(asleep := s.asleep - {w}, woken := s.woken + {w})
    case TimeOut(w) => s.(asleep := s.asleep - {w})
    case TryLock(w) => if Busy(s, w.kind) then s else Granted(s, w)
    case Unlock(t) => Released(s, t)
  }

  // --- What every step keeps ---

  /** mCount counts those the lock was granted to, and a writer is alone. */
  predicate Excludes(s: State) {
    && s.write == s.writer.Some?
    && s.count == |s.readers| + (if s.writer.Some? then 1 else 0)
    && (s.writer.Some? ==> s.readers == multiset{})
  }

  /** Who sleeps sleeps for a reason, so somebody is going to wake him. */
  predicate NoWakeupLost(s: State) {
    forall w :: w in s.asleep ==> Busy(s, w.kind)
  }

  /** A thread waits in one call at a time. */
  predicate WaitsOnce(s: State) {
    && s.asleep !! s.woken
    && forall v, w :: v in s.asleep + s.woken && w in s.asleep + s.woken && v.thread == w.thread ==> v == w
  }

  predicate Inv(s: State) {
    Excludes(s) && NoWakeupLost(s) && WaitsOnce(s)
  }

  /** What the assertions of the source say, where it says it. */
  predicate Asserts(s: State, e: Event) {
    match e
    case Unlock(t) => s.count > 0 && (s.count > 1 ==> !s.write) && (s.count == 1 ==> Released(s, t).count == 0)
    case Lock(w) => w.kind == Write && !Busy(s, Write) ==> !s.write
    case Resume(w) => w.kind == Write && !Busy(s, Write) ==> !s.write
    case TryLock(w) => w.kind == Write && !Busy(s, Write) ==> !s.write && s.count == 0
    case _ => true
  }

  lemma ExcludesKept(s: State, e: Event)
    requires Excludes(s) && Enabled(s, e)
    ensures Excludes(Next(s, e)) && Asserts(s, e)
  {
    match e {
      case Unlock(t) => assert t in s.readers ==> |s.readers| >= 1;
      case _ =>
    }
  }

  lemma NoWakeupLostKept(s: State, e: Event)
    requires Excludes(s) && NoWakeupLost(s) && Enabled(s, e)
    ensures NoWakeupLost(Next(s, e))
  {
  }

  lemma WaitsOnceKept(s: State, e: Event)
    requires WaitsOnce(s) && Enabled(s, e)
    ensures WaitsOnce(Next(s, e))
  {
    match e {
      case Lock(w) => NotWaiting(s, w.thread);
      case _ =>
    }
  }

  lemma NotWaiting(s: State, t: ThreadId)
    requires !Waits(s, t)
    ensures forall v :: v in s.asleep + s.woken ==> v.thread != t
  {
    assert forall k :: Waiter(t, k) !in s.asleep + s.woken;
    assert forall v: Waiter :: v == Waiter(v.thread, v.kind);
  }

  lemma NextKeeps(s: State, e: Event)
    requires Inv(s) && Enabled(s, e)
    ensures Inv(Next(s, e)) && Asserts(s, e)
  {
    ExcludesKept(s, e);
    NoWakeupLostKept(s, e);
    WaitsOnceKept(s, e);
  }

  ghost predicate Legal(s: State, es: seq<Event>)
    decreases |es|
  {
    es == [] || (Enabled(s, es[0]) && Legal(Next(s, es[0]), es[1..]))
  }

  function Run(s: State, es: seq<Event>): State
    decreases |es|
  {
    if es == [] then s else Run(Next(s, es[0]), es[1..])
  }

  lemma {:induction false} RunKeeps(s: State, es: seq<Event>)
    requires Inv(s) && Legal(s, es)
    ensures Inv(Run(s, es))
    decreases |es|
  {
    if es != [] {
      NextKeeps(s, es[0]);
      RunKeeps(Next(s, es[0]), es[1..]);
    }
  }

  /** In every run: nobody else holds the lock while a writer does, mCount is the number of
      holders, no assertion fires, a reader sleeps only while there is a writer and a writer only
      while there is a holder. */
  lemma LockIsSafe(es: seq<Event>, e: Event)
    requires Legal(FREE, es) && Enabled(Run(FREE, es), e)
    ensures var s := Run(FREE, es);
      && (s.writer.Some? ==> s.readers == multiset{} && s.write && s.count == 1)
      && (s.writer.None? ==> !s.write && s.count == |s.readers|)
      && (forall t :: Waiter(t, Read) in s.asleep ==> s.writer.Some?)
      && (forall t :: Waiter(t, Write) in s.asleep ==> exists h :: Holds(s, h))
      && Asserts(s, e)
  {
    RunKeeps(FREE, es);
    var s := Run(FREE, es);
    NextKeeps(s, e);
    forall t | Waiter(t, Write) in s.asleep ensures exists h :: Holds(s, h) {
      assert Busy(s, Write);
      if s.writer.Some? {
        assert Holds(s, s.writer.value);
      } else {
        assert s.readers != multiset{};
        var h :| h in s.readers;
        assert Holds(s, h);
      }
    }
  }

  /** In every run, once nobody holds the lock nobody sleeps, and whichever waiting thread gets
      the mutex first is granted the lock. */
  lemma FreeLockIsTaken(es: seq<Event>, w: Waiter)
    requires Legal(FREE, es) && forall t :: !Holds(Run(FREE, es), t)
    ensures var s := Run(FREE, es);
      && s.asleep == {}
      && (w in s.asleep + s.woken ==>
            Enabled(s, Resume(w)) && Holds(Next(s, Resume(w)), w.thread) && w !in Next(s, Resume(w)).woken)
  {
    RunKeeps(FREE, es);
    var s := Run(FREE, es);
    assert s.readers == multiset{} by {
      assert forall t :: Holds(s, t) || t !in s.readers;
    }
    assert s.writer.Some? ==> Holds(s, s.writer.value);
  }

  /** The state but for one waiter. */
  function Without(s: State, w: Waiter): State {
    s.(asleep := s.asleep - {w}, woken := s.woken - {w})
  }

  /** These events can happen, and the call that w waits in does not return: whatever the other
      threads do, and however often w is woken to find the lock taken again. */
  ghost predicate KeepsWaiting(s: State, w: Waiter, es: seq<Event>)
    decreases |es|
  {
    es == []
    || (&& Enabled(s, es[0]) && es[0] != TimeOut(w) && (es[0] == Resume(w) ==> Busy(s, w.kind))
        && KeepsWaiting(Next(s, es[0]), w, es[1..]))
  }

  /** What the other threads do. */
  function Others(es: seq<Event>, w: Waiter): seq<Event>
    decreases |es|
  {
    if es == [] then []
    else (if es[0] == WakeSpuriously(w) || es[0] == Resume(w) then [] else [es[0]]) + Others(es[1..], w)
  }

  lemma SameWithout(s: State, w: Waiter, e: Event)
    requires Inv(s) && w in s.asleep + s.woken
    requires e == WakeSpuriously(w) || (e == Resume(w) && Busy(s, w.kind))
    ensures w in Next(s, e).asleep + Next(s, e).woken && Without(Next(s, e), w) == Without(s, w)
  {
    var t := Next(s, e);
    assert t.asleep - {w} == s.asleep - {w} && t.woken - {w} == s.woken - {w};
  }

  lemma EnabledWithout(s: State, w: Waiter, e: Event)
    requires Inv(s) && Enabled(s, e) && w in s.asleep + s.woken
    requires e != TimeOut(w) && e != WakeSpuriously(w) && e != Resume(w)
    ensures Enabled(Without(s, w), e)
    ensures e.Lock? || e.TryLock? ==> e.waiter != w
  {
    assert forall t :: Waits(Without(s, w), t) ==> Waits(s, t);
    match e {
      case Lock(v) => OtherThread(s, w, v.thread);
      case TryLock(v) => OtherThread(s, w, v.thread);
      case _ =>
    }
  }

  lemma OneLess(a: set<Waiter>, b: set<Waiter>, v: Waiter, w: Waiter)
    ensures v != w ==> (a - {w}) + {v} == (a + {v}) - {w}
    ensures (a - {w}) - {v} == (a - {v}) - {w}
    ensures (a - {w}) + (b - {w}) == (a + b) - {w}
  {
  }

  lemma TestedWithout(s: State, w: Waiter, v: Waiter)
    requires v != w
    ensures Tested(Without(s, w), v) == Without(Tested(s, v), w)
  {
    OneLess(s.asleep, {}, v, w);
  }

  lemma WaitersWithout(s: State, w: Waiter, e: Event)
    requires e != TimeOut(w) && e != WakeSpuriously(w) && e != Resume(w)
    requires e.Lock? || e.TryLock? ==> e.waiter != w
    ensures Next(Without(s, w), e) == Without(Next(s, e), w)
  {
    match e {
      case Lock(v) => TestedWithout(s, w, v);
      case Resume(v) =>
        OneLess(s.woken, {}, v, w);
        TestedWithout(s.(woken := s.woken - {v}), w, v);
      case WakeSpuriously(v) =>
        OneLess(s.asleep, {}, v, w);
        OneLess(s.woken, {}, v, w);
      case TimeOut(v) => OneLess(s.asleep, {}, v, w);
      case Unlock(t) => OneLess(s.woken, s.asleep, w, w);
      case TryLock(v) =>
    }
  }

  lemma StillWaits(s: State, w: Waiter, e: Event)
    requires w in s.asleep + s.woken && e != TimeOut(w) && e != WakeSpuriously(w) && e != Resume(w)
    ensures w in Next(s, e).asleep + Next(s, e).woken
  {
  }

  /** One event of the others: it keeps w waiting, and does what it would do without w. */
  lemma StepWithout(s: State, w: Waiter, e: Event)
    requires Inv(s) && Enabled(s, e) && w in s.asleep + s.woken
    requires e != TimeOut(w) && e != WakeSpuriously(w) && e != Resume(w)
    ensures w in Next(s, e).asleep + Next(s, e).woken
    ensures Enabled(Without(s, w), e) && Next(Without(s, w), e) == Without(Next(s, e), w)
  {
    EnabledWithout(s, w, e);
    WaitersWithout(s, w, e);
    StillWaits(s, w, e);
  }

  lemma OtherThread(s: State, w: Waiter, t: ThreadId)
    requires w in s.asleep + s.woken && !Waits(s, t)
    ensures t != w.thread
  {
    assert Waiter(w.thread, w.kind) == w;
  }

  lemma {:induction false} RunWithout(s: State, w: Waiter, es: seq<Event>)
    requires Inv(s) && w in s.asleep + s.woken && KeepsWaiting(s, w, es)
    ensures Legal(s, es) && Legal(Without(s, w), Others(es, w))
    ensures Run(Without(s, w), Others(es, w)) == Without(Run(s, es), w)
    ensures Inv(Run(s, es)) && w in Run(s, es).asleep + Run(s, es).woken
    decreases |es|
  {
    if es != [] {
      var e := es[0];
      NextKeeps(s, e);
      if e != WakeSpuriously(w) && e != Resume(w) {
        StepWithout(s, w, e);
        RunWithout(Next(s, e), w, es[1..]);
        assert ([e] + Others(es[1..], w))[1..] == Others(es[1..], w);
      } else {
        SameWithout(s, w, e);
        RunWithout(Next(s, e), w, es[1..]);
        assert [] + Others(es[1..], w) == Others(es[1..], w);
      }
    }
  }

  lemma {:induction false} RunOneMore(s: State, es: seq<Event>, e: Event)
    requires Legal(s, es) && Enabled(Run(s, es), e)
    ensures Legal(s, es + [e]) && Run(s, es + [e]) == Next(Run(s, es), e)
    decreases |es|
  {
    if es == [] {
      assert [e][1..] == [];
    } else {
      assert (es + [e])[1..] == es[1..] + [e];
      RunOneMore(Next(s, es[0]), es[1..], e);
    }
  }

  /** A call whose wait times out leaves no trace, whatever happens while it waits: the others can
      do what they do without it, and the lock ends in the same state as if the thread had never
      called. */
  lemma TimeOutLeavesNoTrace(s: State, w: Waiter, es: seq<Event>)
    requires Inv(s) && Enabled(s, Lock(w)) && Busy(s, w.kind)
    requires KeepsWaiting(Next(s, Lock(w)), w, es) && w in Run(Next(s, Lock(w)), es).asleep
    ensures Legal(s, [Lock(w)] + (es + [TimeOut(w)])) && Legal(s, Others(es, w))
    ensures Run(s, [Lock(w)] + (es + [TimeOut(w)])) == Run(s, Others(es, w))
  {
    var s1 := Next(s, Lock(w));
    NotWaiting(s, w.thread);
    assert Without(s1, w) == s;
    NextKeeps(s, Lock(w));
    RunWithout(s1, w, es);
    RunOneMore(s1, es, TimeOut(w));
    TimedOut(Run(s1, es), w);
    assert ([Lock(w)] + (es + [TimeOut(w)]))[1..] == es + [TimeOut(w)];
  }

  lemma TimedOut(s: State, w: Waiter)
    requires WaitsOnce(s) && w in s.asleep
    ensures Next(s, TimeOut(w)) == Without(s, w)
  {
  }

  /** The lock under its mutex. The scheduler calls the methods in any order; each makes one
      step, so what every run keeps (LockIsSafe) holds between any two calls. */
  class RWLock {
    var count: int
    var write: bool
    ghost var asleep: set<Waiter>
    ghost var woken: set<Waiter>
    ghost var readers: multiset<ThreadId>
    ghost var writer: Option<ThreadId>

    ghost function Tables(): State
      reads this
    {
      State(count, write, asleep, woken, readers, writer)
    }

    constructor ()
      ensures Tables() == FREE
    {
      count, write := 0, false;
      asleep, woken, readers, writer := {}, {}, multiset{}, None;
    }

    /** The wait loop of lock(), until it returns true or waits: resumed says whether a wait
        was woken before, rather than the call begun. */
    method TestLoop(w: Waiter, resumed: bool) returns (locked: bool)
      requires Inv(Tables()) && Enabled(Tables(), if resumed then Resume(w) else Event.Lock(w))
      modifies this
      ensures Inv(Tables()) && Tables() == Next(old(Tables()), if resumed then Resume(w) else Event.Lock(w))
      ensures locked <==> !Busy(old(Tables()), w.kind)
      ensures if locked then Holds(Tables(), w.thread) else w in asleep
    {
      NextKeeps(Tables(), if resumed then Resume(w) else Event.Lock(w));
      woken := if resumed then woken - {w} else woken;
      match w.kind {
        case Read =>
          if write {
            asleep := asleep + {w};
            return false;
          }
          count, readers := count + 1, readers + multiset{w.thread};
        case Write =>
          if count != 0 {
            asleep := asleep + {w};
            return false;
          }
          assert !write;
          count, write, writer := 1, true, Some(w.thread);
      }
      locked := true;
    }

    method TryLock(w: Waiter) returns (locked: bool)
      requires Inv(Tables()) && Enabled(Tables(), Event.TryLock(w))
      modifies this
      ensures Inv(Tables()) && Tables() == Next(old(Tables()), Event.TryLock(w))
      ensures locked <==> !Busy(old(Tables()), w.kind)
      ensures if locked then Holds(Tables(), w.thread) else Tables() == old(Tables())
    {
      NextKeeps(Tables(), Event.TryLock(w));
      match w.kind {
        case Read =>
          if write {
            return false;
          }
          count, readers := count + 1, readers + multiset{w.thread};
        case Write =>
          if count > 0 {
            return false;
          }
          assert !write && count == 0;
          count, write, writer := 1, true, Some(w.thread);
      }
      locked := true;
    }

    method Unlock(ghost t: ThreadId)
      requires Inv(Tables()) && Enabled(Tables(), Event.Unlock(t))
      modifies this
      ensures Inv(Tables()) && Tables() == Next(old(Tables()), Event.Unlock(t))
      // the sleepers are woken, all of them, exactly by the last to go
      ensures if count == 0 then asleep == {} && woken == old(woken) + old(asleep)
              else asleep == old(asleep) && woken == old(woken)
    {
      NextKeeps(Tables(), Event.Unlock(t));
      assert count > 0;
      if t in readers {
        readers := readers - multiset{t};
      } else {
        writer := None;
      }
      if count > 1 {
        count := count - 1;
        assert !write;
        return;
      }
      count := count - 1;
      assert count == 0;
      write := false;
      asleep, woken := {}, woken + asleep;
    }
  }
}
