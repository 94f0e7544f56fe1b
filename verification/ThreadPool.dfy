/** The pool of worker threads (src/ThreadPool.cpp) as a system of steps: each step is what some
    thread does while it holds the mutex, and the scheduler picks the steps. */
module ThreadPool {
  import opened Sets

  /** A job to be queued; a job with the priority Guaranteed gets a thread of its own instead. */
  datatype Job = Job(id: nat, priority: nat)

  type WorkerId = nat

  /** A worker that is neither running a job nor gone is asleep on the condition, woken from it,
      entering for the first time, or returned from a job. In the last three cases it waits
      for the mutex. threads is mThreads; own holds the jobs run by threads of their own. */
  datatype State = State(
    queue: seq<Job>, busy: int, threads: seq<WorkerId>, next: WorkerId,
    asleep: set<WorkerId>, woken: set<WorkerId>, entering: set<WorkerId>, returned: set<WorkerId>,
    running: map<WorkerId, Job>, exited: set<WorkerId>, stopped: set<WorkerId>,
    own: multiset<Job>)

  const EMPTY := State([], 0, [], 0, {}, {}, {}, {}, map[], {}, {}, multiset{})

  /** What became of the jobs that were submitted. */
  datatype History = History(submitted: multiset<Job>, finished: multiset<Job>, cleared: multiset<Job>)

  const NOTHING_YET := History(multiset{}, multiset{}, multiset{})

  datatype Event =
    | Start(job: Job, wake: set<WorkerId>, sorted: seq<Job>)
    | StartOwn(job: Job)
    | Enter(worker: WorkerId)
    | FinishJob(worker: WorkerId)
    | FinishOwn(job: Job)
    | WakeSpuriously(worker: WorkerId)
    | Grow
    | StopLast
    | ClearBackLog

  // --- The steps ---

  predicate Sorted(q: seq<Job>) {
    forall i, j :: 0 <= i < j < |q| ==> q[i].priority >= q[j].priority
  }

  /** A result std::sort may give: it need not be stable. */
  predicate SortOf(sorted: seq<Job>, q: seq<Job>) {
    Sorted(sorted) && multiset(sorted) == multiset(q)
  }

  predicate NeedsSort(q: seq<Job>, job: Job) {
    q != [] && q[|q| - 1].priority < job.priority && q[0].priority >= job.priority
  }

  function Enqueued(q: seq<Job>, job: Job, sorted: seq<Job>): seq<Job> {
    if q == [] || q[|q| - 1].priority >= job.priority then q + [job]
    else if q[0].priority < job.priority then [job] + q
    else sorted
  }

  /** A signal wakes at least one sleeper if there is any. */
  predicate Enabled(s: State, e: Event) {
    match e
    case Start(job, wake, sorted) =>
      wake <= s.asleep && (s.asleep != {} ==> wake != {})
      && (NeedsSort(s.queue, job) ==> SortOf(sorted, s.queue + [job]))
    case Enter(w) => w in s.entering + s.woken + s.returned
    case FinishJob(w) => w in s.running
    case FinishOwn(job) => job in s.own
    case WakeSpuriously(w) => w in s.asleep
    case StopLast => s.threads != []
    case _ => true
  }

  /** What a worker does once it has the mutex. */
  function Entered(s: State, w: WorkerId): State {
    var s0 := s.(busy := if w in s.returned then s.busy - 1 else s.busy,
                 entering := s.entering - {w}, woken := s.woken - {w}, returned := s.returned - {w});
    if s.queue == [] && w !in s.stopped then s0.(asleep := s.asleep + {w})
    else if w in s.stopped then s0.(exited := s.exited + {w})
    else s0.(queue := s.queue[1..], running := s.running[w := s.queue[0]], busy := s0.busy + 1)
  }

  function Next(s: State, e: Event): State
    requires Enabled(s, e)
  {
    match e
    case Start(job, wake, sorted) =>
      s.(queue := Enqueued(s.queue, job, sorted), asleep := s.asleep - wake, woken := s.woken + wake)
    case StartOwn(job) => s.(own := s.own + multiset{job})
    case Enter(w) => Entered(s, w)
    case FinishJob(w) => s.(running := s.running - {w}, returned := s.returned + {w})
    case FinishOwn(job) => s.(own := s.own - multiset{job})
    case WakeSpuriously(w) => s.(asleep := s.asleep - {w}, woken := s.woken + {w})
    case Grow => s.(threads := s.threads + [s.next], next := s.next + 1, entering := s.entering + {s.next})
    case StopLast =>
      s.(threads := s.threads[..|s.threads| - 1], stopped := s.stopped + {s.threads[|s.threads| - 1]},
         asleep := {}, woken := s.woken + s.asleep)
    case ClearBackLog => s.(queue := [])
  }

  function Record(h: History, s: State, e: Event): History
    requires Enabled(s, e)
  {
    match e
    case Start(job, _, _) => h.(submitted := h.submitted + multiset{job})
    case StartOwn(job) => h.(submitted := h.submitted + multiset{job})
    case FinishJob(w) => h.(finished := h.finished + multiset{s.running[w]})
    case FinishOwn(job) => h.(finished := h.finished + multiset{job})
    case ClearBackLog => h.(cleared := h.cleared + multiset(s.queue))
    case _ => h
  }

  // --- What every step keeps ---

  function Workers(s: State): set<WorkerId> {
    s.asleep + s.woken + s.entering + s.returned + s.running.Keys + s.exited
  }

  /** Each worker is in one place, those in mThreads are not stopped, and nobody who is stopped
      sleeps. */
  predicate Placed(s: State) {
    && s.asleep !! s.woken !! s.entering !! s.returned !! s.running.Keys !! s.exited
    && (forall w :: w in Workers(s) ==> w < s.next)
    && (forall i :: 0 <= i < |s.threads| ==> s.threads[i] in Workers(s) && s.threads[i] !in s.stopped)
    && (forall i, j :: 0 <= i < j < |s.threads| ==> s.threads[i] != s.threads[j])
    && s.stopped <= Workers(s) && s.asleep !! s.stopped && s.exited <= s.stopped
  }

  /** No job is stranded: if anybody sleeps, there is a worker on its way for each queued job,
      one that was woken and is not about to exit. */
  predicate NoneStranded(s: State) {
    s.asleep != {} ==> |s.queue| <= |s.woken - s.stopped|
  }

  predicate BusyCounts(s: State) {
    s.busy == |s.running| + |s.returned|
  }

  predicate Inv(s: State) {
    Placed(s) && NoneStranded(s) && BusyCounts(s) && Sorted(s.queue)
  }

  lemma EnqueueSorts(q: seq<Job>, job: Job, sorted: seq<Job>)
    requires Sorted(q) && (NeedsSort(q, job) ==> SortOf(sorted, q + [job]))
    ensures Sorted(Enqueued(q, job, sorted))
    ensures multiset(Enqueued(q, job, sorted)) == multiset(q) + multiset{job}
    ensures |Enqueued(q, job, sorted)| == |q| + 1
    // behind all of its priority, if none is lower; before all, if all are
    ensures (forall j :: j in q ==> j.priority >= job.priority) ==> Enqueued(q, job, sorted) == q + [job]
    ensures (forall j :: j in q ==> j.priority < job.priority) ==> Enqueued(q, job, sorted) == [job] + q
  {
    assert q != [] ==> q[0] in q && q[|q| - 1] in q;
    assert [job] + [] == [] + [job];
    if NeedsSort(q, job) {
      assert |multiset(sorted)| == |multiset(q + [job])|;
    }
  }

  lemma PlacedKept(s: State, e: Event)
    requires Placed(s) && Enabled(s, e)
    ensures Placed(Next(s, e))
  {
  }

  lemma SignalCounts(woken: set<WorkerId>, stopped: set<WorkerId>, wake: set<WorkerId>)
    requires wake != {} && wake !! woken && wake !! stopped
    ensures |woken - stopped| + 1 <= |(woken + wake) - stopped|
  {
    var w :| w in wake;
    var before, after := woken - stopped, (woken + wake) - stopped;
    assert |before + {w}| == |before| + 1;
    SubsetSize(before + {w}, after);
  }

  lemma StrandedKeptByStart(s: State, job: Job, wake: set<WorkerId>, sorted: seq<Job>)
    requires Inv(s) && Enabled(s, Start(job, wake, sorted))
    ensures NoneStranded(Next(s, Start(job, wake, sorted)))
  {
    EnqueueSorts(s.queue, job, sorted);
    if s.asleep != {} {
      SignalCounts(s.woken, s.stopped, wake);
    }
  }

  lemma OneLess(woken: set<WorkerId>, stopped: set<WorkerId>, w: WorkerId)
    ensures |woken - stopped| <= |(woken - {w}) - stopped| + if w in stopped then 0 else 1
  {
    var before, after := woken - stopped, (woken - {w}) - stopped;
    if w in stopped {
      assert before == after;
    } else {
      assert before <= after + {w};
      SubsetSize(before, after + {w});
    }
  }

  lemma StrandedKeptByEnter(s: State, w: WorkerId)
    requires NoneStranded(s)
    ensures NoneStranded(Entered(s, w))
  {
    OneLess(s.woken, s.stopped, w);
  }

  lemma StrandedKept(s: State, e: Event)
    requires Inv(s) && Enabled(s, e)
    ensures NoneStranded(Next(s, e))
  {
    match e {
      case Start(job, wake, sorted) => StrandedKeptByStart(s, job, wake, sorted);
      case Enter(w) => StrandedKeptByEnter(s, w);
      case WakeSpuriously(w) => SubsetSize(s.woken - s.stopped, s.woken + {w} - s.stopped);
      case _ =>
    }
  }

  lemma RunningCounts(running: map<WorkerId, Job>, w: WorkerId, job: Job)
    ensures w !in running ==> |running[w := job]| == |running| + 1
    ensures w in running ==> |running - {w}| == |running| - 1
  {
    assert running[w := job].Keys == running.Keys + {w};
    assert (running - {w}).Keys == running.Keys - {w};
  }

  lemma BusyKeptByEnter(s: State, w: WorkerId)
    requires BusyCounts(s) && w !in s.running
    ensures BusyCounts(Entered(s, w))
  {
    if s.queue != [] {
      RunningCounts(s.running, w, s.queue[0]);
    }
  }

  lemma BusyKeptByFinish(s: State, w: WorkerId)
    requires BusyCounts(s) && w in s.running && w !in s.returned
    ensures BusyCounts(Next(s, FinishJob(w)))
  {
    RunningCounts(s.running, w, s.running[w]);
  }

  lemma BusyKept(s: State, e: Event)
    requires Placed(s) && BusyCounts(s) && Enabled(s, e)
    ensures BusyCounts(Next(s, e))
  {
    match e {
      case Enter(w) => BusyKeptByEnter(s, w);
      case FinishJob(w) => BusyKeptByFinish(s, w);
      case _ =>
    }
  }

  lemma SortedKept(s: State, e: Event)
    requires Sorted(s.queue) && Enabled(s, e)
    ensures Sorted(Next(s, e).queue)
  {
    if e.Start? {
      EnqueueSorts(s.queue, e.job, e.sorted);
    }
  }

  lemma NextKeeps(s: State, e: Event)
    requires Inv(s) && Enabled(s, e)
    ensures Inv(Next(s, e))
  {
    PlacedKept(s, e);
    StrandedKept(s, e);
    BusyKept(s, e);
    SortedKept(s, e);
  }

  // --- Every job is accounted for ---

  function RunningAs(running: map<WorkerId, Job>, job: Job): set<WorkerId> {
    set w | w in running && running[w] == job
  }

  /** As often as a job was submitted it is queued, running, finished or cleared. */
  predicate Tallies(s: State, h: History, job: Job) {
    multiset(s.queue)[job] + |RunningAs(s.running, job)| + s.own[job] + h.finished[job] + h.cleared[job]
    == h.submitted[job]
  }

  lemma RunningAsCounts(running: map<WorkerId, Job>, w: WorkerId, taken: Job, job: Job)
    ensures w !in running ==>
              |RunningAs(running[w := taken], job)| == |RunningAs(running, job)| + if taken == job then 1 else 0
    ensures w in running ==>
              |RunningAs(running - {w}, job)| == |RunningAs(running, job)| - if running[w] == job then 1 else 0
  {
    var r := RunningAs(running, job);
    assert w !in running ==> RunningAs(running[w := taken], job) == if taken == job then r + {w} else r;
    assert w in running ==> RunningAs(running - {w}, job) == r - {w};
  }

  lemma EnterTallies(s: State, h: History, w: WorkerId, job: Job)
    requires Tallies(s, h, job) && w !in s.running
    ensures Tallies(Entered(s, w), h, job)
  {
    if s.queue != [] {
      assert s.queue == [s.queue[0]] + s.queue[1..];
      RunningAsCounts(s.running, w, s.queue[0], job);
    }
  }

  lemma NextTallies(s: State, h: History, e: Event, job: Job)
    requires Placed(s) && Sorted(s.queue) && Enabled(s, e) && Tallies(s, h, job)
    ensures Tallies(Next(s, e), Record(h, s, e), job)
  {
    match e {
      case Start(j, _, sorted) => EnqueueSorts(s.queue, j, sorted);
      case Enter(w) => EnterTallies(s, h, w, job);
      case FinishJob(w) => RunningAsCounts(s.running, w, s.running[w], job);
      case _ =>
    }
  }

  // --- Whole runs ---

  predicate Legal(s: State, es: seq<Event>)
    decreases |es|
  {
    es == [] || (Enabled(s, es[0]) && Legal(Next(s, es[0]), es[1..]))
  }

  function Run(s: State, h: History, es: seq<Event>): (State, History)
    requires Legal(s, es)
    decreases |es|
  {
    if es == [] then (s, h) else Run(Next(s, es[0]), Record(h, s, es[0]), es[1..])
  }

  lemma {:induction false} RunKeeps(s: State, h: History, es: seq<Event>, job: Job)
    requires Inv(s) && Tallies(s, h, job) && Legal(s, es)
    ensures Inv(Run(s, h, es).0) && Tallies(Run(s, h, es).0, Run(s, h, es).1, job)
    decreases |es|
  {
    if es != [] {
      NextKeeps(s, es[0]);
      NextTallies(s, h, es[0], job);
      RunKeeps(Next(s, es[0]), Record(h, s, es[0]), es[1..], job);
    }
  }

  /** In every run: no job is stranded, the queue is sorted, mBusyThreads counts the workers with
      a job, and each job is as often queued, running, finished or cleared as it was submitted. */
  lemma PoolIsSafe(es: seq<Event>, job: Job)
    requires Legal(EMPTY, es)
    ensures var (s, h) := Run(EMPTY, NOTHING_YET, es);
      NoneStranded(s) && Sorted(s.queue) && BusyCounts(s) && Tallies(s, h, job)
  {
    assert RunningAs(map[], job) == {};
    RunKeeps(EMPTY, NOTHING_YET, es, job);
  }

  /** A worker that was stopped takes no job; one that was not takes one whenever there is one,
      of the highest priority queued, and else goes to sleep. */
  lemma TakesHighest(es: seq<Event>, w: WorkerId)
    requires Legal(EMPTY, es) && Enabled(Run(EMPTY, NOTHING_YET, es).0, Enter(w))
    ensures var s := Run(EMPTY, NOTHING_YET, es).0;
      var s' := Entered(s, w);
      && (w in s.stopped ==> w in s'.exited && s'.queue == s.queue && s'.running == s.running)
      && (w !in s.stopped && s.queue == [] ==> w in s'.asleep)
      && (w !in s.stopped && s.queue != [] ==>
            && w in s'.running && s'.running[w] == s.queue[0] && s'.queue == s.queue[1..]
            && forall job :: job in s.queue ==> job.priority <= s'.running[w].priority)
  {
    PoolIsSafe(es, Job(0, 0));
    var s := Run(EMPTY, NOTHING_YET, es).0;
    forall job | job in s.queue ensures job.priority <= s.queue[0].priority {
      var i :| 0 <= i < |s.queue| && s.queue[i] == job;
    }
  }

  // --- The queue drains ---

  /** A bound on the steps the workers can take by themselves. */
  function StepsLeft(s: State): nat {
    3 * |s.queue| + 2 * |s.running| + |s.returned| + |s.woken| + |s.entering|
  }

  lemma WorkerStepCounts(s: State, e: Event)
    requires Placed(s) && Enabled(s, e) && (e.Enter? || e.FinishJob?)
    ensures StepsLeft(Next(s, e)) < StepsLeft(s)
  {
    match e {
      case Enter(w) => EnterCounts(s, w);
      case FinishJob(w) => RunningCounts(s.running, w, s.running[w]);
    }
  }

  lemma EnterCounts(s: State, w: WorkerId)
    requires w in s.entering + s.woken + s.returned && w !in s.running
    ensures StepsLeft(Entered(s, w)) < StepsLeft(s)
  {
    if s.queue != [] {
      RunningCounts(s.running, w, s.queue[0]);
    }
    LeavesCount(s.entering, w);
    LeavesCount(s.woken, w);
    LeavesCount(s.returned, w);
  }

  lemma LeavesCount(a: set<WorkerId>, w: WorkerId)
    ensures |a - {w}| == if w in a then |a| - 1 else |a|
  {
    if w !in a {
      assert a - {w} == a;
    }
  }

  lemma {:induction false} RunsOut(s: State, h: History, es: seq<Event>)
    requires Inv(s) && Legal(s, es) && forall e :: e in es ==> e.Enter? || e.FinishJob?
    ensures Inv(Run(s, h, es).0) && |es| + StepsLeft(Run(s, h, es).0) <= StepsLeft(s)
    decreases |es|
  {
    if es != [] {
      assert es[0] in es;
      NextKeeps(s, es[0]);
      WorkerStepCounts(s, es[0]);
      RunsOut(Next(s, es[0]), Record(h, s, es[0]), es[1..]);
    }
  }

  /** No worker waits for the mutex and none runs a job. */
  predicate Stuck(s: State) {
    s.entering + s.woken + s.returned == {} && s.running == map[]
  }

  ghost predicate NoWorkerCanStep(s: State) {
    forall e: Event :: Enabled(s, e) ==> !e.Enter? && !e.FinishJob?
  }

  lemma StuckIff(s: State)
    ensures Stuck(s) <==> NoWorkerCanStep(s)
  {
    if w :| w in s.entering + s.woken + s.returned {
      assert Enabled(s, Enter(w));
    } else if w :| w in s.running {
      assert Enabled(s, FinishJob(w));
    }
  }

  lemma StuckIsEmpty(s: State)
    requires NoneStranded(s) && Stuck(s)
    ensures s.queue == [] || Workers(s) == s.exited
  {
    assert s.woken == {} && s.woken - s.stopped == {};
  }

  lemma DrainsFrom(s: State, h: History, more: seq<Event>)
    requires Inv(s) && Legal(s, more) && forall e :: e in more ==> e.Enter? || e.FinishJob?
    ensures |more| <= StepsLeft(s)
    ensures var s' := Run(s, h, more).0; NoWorkerCanStep(s') ==> s'.queue == [] || Workers(s') == s'.exited
  {
    RunsOut(s, h, more);
    StuckIff(Run(s, h, more).0);
    if Stuck(Run(s, h, more).0) {
      StuckIsEmpty(Run(s, h, more).0);
    }
  }

  /** After any run, left alone the workers can take only so many steps, and once they can take
      none every job has been taken off the queue, unless all workers were stopped. */
  lemma QueueDrains(es: seq<Event>, more: seq<Event>)
    requires Legal(EMPTY, es) && Legal(Run(EMPTY, NOTHING_YET, es).0, more)
    requires forall e :: e in more ==> e.Enter? || e.FinishJob?
    ensures var (s, h) := Run(EMPTY, NOTHING_YET, es);
      var s' := Run(s, h, more).0;
      |more| <= StepsLeft(s) && (NoWorkerCanStep(s') ==> s'.queue == [] || Workers(s') == s'.exited)
  {
    assert RunningAs(map[], Job(0, 0)) == {};
    RunKeeps(EMPTY, NOTHING_YET, es, Job(0, 0));
    DrainsFrom(Run(EMPTY, NOTHING_YET, es).0, Run(EMPTY, NOTHING_YET, es).1, more);
  }

  // --- The object ---

  function InsertedAt(q: seq<Job>, job: Job): (i: nat)
    requires Sorted(q)
    ensures i <= |q|
    ensures forall j :: 0 <= j < i ==> q[j].priority >= job.priority
    ensures forall j :: i <= j < |q| ==> job.priority > q[j].priority
  {
    if q == [] || q[0].priority < job.priority then 0 else 1 + InsertedAt(q[1..], job)
  }

  lemma InsertSorts(q: seq<Job>, job: Job, i: nat)
    requires Sorted(q) && i == InsertedAt(q, job)
    ensures Sorted(q[..i] + [job] + q[i..])
  {
  }

  /** std::sort has a result to give. */
  lemma CanSort(q: seq<Job>, job: Job) returns (sorted: seq<Job>)
    requires Sorted(q)
    ensures SortOf(sorted, q + [job])
  {
    var i := InsertedAt(q, job);
    InsertSorts(q, job, i);
    sorted := q[..i] + [job] + q[i..];
    calc {
      multiset(sorted);
      multiset(q[..i]) + multiset{job} + multiset(q[i..]);
      multiset(q[..i] + q[i..]) + multiset{job};
      { assert q == q[..i] + q[i..]; }
      multiset(q + [job]);
    }
  }

  function GrownBy(s: State, n: nat): State {
    if n == 0 then s else Next(GrownBy(s, n - 1), Grow)
  }

  /** Some run leads here. */
  ghost predicate Reachable(s: State) {
    exists es :: Legal(EMPTY, es) && Run(EMPTY, NOTHING_YET, es).0 == s
  }

  lemma EmptyIsReachable()
    ensures Reachable(EMPTY)
  {
    assert Legal(EMPTY, []) && Run(EMPTY, NOTHING_YET, []).0 == EMPTY;
  }

  lemma {:induction false} RunOneMore(s: State, h: History, es: seq<Event>, e: Event)
    requires Legal(s, es) && Enabled(Run(s, h, es).0, e)
    ensures Legal(s, es + [e]) && Run(s, h, es + [e]).0 == Next(Run(s, h, es).0, e)
    decreases |es|
  {
    if es == [] {
      assert [e][1..] == [];
    } else {
      RunOneMore(Next(s, es[0]), Record(h, s, es[0]), es[1..], e);
      assert (es + [e])[1..] == es[1..] + [e];
    }
  }

  lemma ReachableNext(s: State, e: Event)
    requires Reachable(s) && Enabled(s, e)
    ensures Reachable(Next(s, e))
  {
    var es :| Legal(EMPTY, es) && Run(EMPTY, NOTHING_YET, es).0 == s;
    RunOneMore(EMPTY, NOTHING_YET, es, e);
  }

  lemma {:induction false} ReachableGrown(s: State, n: nat)
    requires Reachable(s)
    ensures Reachable(GrownBy(s, n))
  {
    if n > 0 {
      ReachableGrown(s, n - 1);
      ReachableNext(GrownBy(s, n - 1), Grow);
    }
  }

  lemma ReachableIsSafe(s: State)
    requires Reachable(s)
    ensures NoneStranded(s) && Sorted(s.queue) && BusyCounts(s)
  {
    var es :| Legal(EMPTY, es) && Run(EMPTY, NOTHING_YET, es).0 == s;
    PoolIsSafe(es, Job(0, 0));
  }

  /** The pool under its mutex. The scheduler calls the methods in any order; each makes a step
      of the system, so whatever is called, what every run keeps (PoolIsSafe) holds between any
      two calls. */
  class Pool {
    var queue: seq<Job>
    var busy: int
    var threads: seq<WorkerId>
    var running: map<WorkerId, Job>
    var next: WorkerId
    var asleep: set<WorkerId>
    var woken: set<WorkerId>
    var entering: set<WorkerId>
    var returned: set<WorkerId>
    var exited: set<WorkerId>
    var stopped: set<WorkerId>
    var own: multiset<Job>

    ghost function Tables(): State
      reads this
    {
      State(queue, busy, threads, next, asleep, woken, entering, returned, running, exited, stopped, own)
    }

    ghost predicate Valid()
      reads this
    {
      Reachable(Tables())
    }

    constructor (concurrentJobs: nat)
      ensures Valid() && Tables() == GrownBy(EMPTY, concurrentJobs)
      ensures |threads| == concurrentJobs
    {
      queue, busy, threads, next := [], 0, [], 0;
      asleep, woken, entering, returned, exited, stopped := {}, {}, {}, {}, {}, {};
      running, own := map[], multiset{};
      new;
      EmptyIsReachable();
      GrowTo(concurrentJobs);
    }

    /** What the callers may rely on between any two calls. */
    lemma IsSafe()
      requires Valid()
      ensures NoneStranded(Tables()) && Sorted(queue) && BusyCounts(Tables())
    {
      ReachableIsSafe(Tables());
    }

    /** start(): wake is whom the signal wakes, sorted what the sort gives. */
    method Start(job: Job, wake: set<WorkerId>) returns (ghost sorted: seq<Job>)
      requires Valid() && wake <= asleep && (asleep != {} ==> wake != {})
      modifies `queue, `asleep, `woken
      ensures Valid() && old(Enabled(Tables(), Event.Start(job, wake, sorted)))
      ensures Tables() == Next(old(Tables()), Event.Start(job, wake, sorted))
    {
      IsSafe();
      sorted := [];
      if queue == [] {
        queue := queue + [job];
      } else if queue[|queue| - 1].priority >= job.priority {
        queue := queue + [job];
      } else if queue[0].priority < job.priority {
        queue := [job] + queue;
      } else {
        ghost var witnessed := CanSort(queue, job);
        var q :| SortOf(q, queue + [job]);
        sorted := q;
        queue := q;
      }
      asleep, woken := asleep - wake, woken + wake;
      ReachableNext(old(Tables()), Event.Start(job, wake, sorted));
    }

    method LookForJob(w: WorkerId) returns (taken: seq<Job>)
      requires Enabled(Tables(), Event.Enter(w))
      modifies this
      ensures Tables() == Next(old(Tables()), Event.Enter(w))
      ensures taken == if w in old(stopped) || old(queue) == [] then [] else [old(queue)[0]]
    {
      if w in returned {
        busy := busy - 1;
      }
      entering, woken, returned := entering - {w}, woken - {w}, returned - {w};
      taken := [];
      if queue == [] && w !in stopped {
        asleep := asleep + {w};
      } else if w in stopped {
        exited := exited + {w};
      } else {
        taken := [queue[0]];
        running := running[w := queue[0]];
        queue := queue[1..];
        busy := busy + 1;
      }
    }

    /** One round of the loop of run(), from getting the mutex to letting it go. */
    method Enter(w: WorkerId) returns (taken: seq<Job>)
      requires Valid() && Enabled(Tables(), Event.Enter(w))
      modifies this
      ensures Valid() && Tables() == Next(old(Tables()), Event.Enter(w))
      ensures taken == if w in old(stopped) || old(queue) == [] then [] else [old(queue)[0]]
    {
      ReachableNext(Tables(), Event.Enter(w));
      taken := LookForJob(w);
    }

    method FinishJob(w: WorkerId)
      requires Valid() && Enabled(Tables(), Event.FinishJob(w))
      modifies `running, `returned
      ensures Valid() && Tables() == Next(old(Tables()), Event.FinishJob(w))
    {
      ReachableNext(Tables(), Event.FinishJob(w));
      running, returned := running - {w}, returned + {w};
    }

    method AddThreads(n: nat)
      modifies `threads, `next, `entering
      ensures Tables() == GrownBy(old(Tables()), n) && |threads| == |old(threads)| + n
    {
      for i := 0 to n
        invariant |threads| == |old(threads)| + i
        invariant Tables() == GrownBy(old(Tables()), i)
      {
        threads, next, entering := threads + [next], next + 1, entering + {next};
      }
    }

    /** The growing branch of setConcurrentJobs(). */
    method GrowTo(concurrentJobs: nat)
      requires Valid() && |threads| <= concurrentJobs
      modifies `threads, `next, `entering
      ensures Valid() && Tables() == GrownBy(old(Tables()), concurrentJobs - |old(threads)|)
      ensures |threads| == concurrentJobs
    {
      ReachableGrown(Tables(), concurrentJobs - |threads|);
      AddThreads(concurrentJobs - |threads|);
    }

    /** The shrinking branch stops the last worker; all sleepers are woken. */
    method StopLast() returns (w: WorkerId)
      requires Valid() && threads != []
      modifies `threads, `stopped, `asleep, `woken
      ensures Valid() && Tables() == Next(old(Tables()), Event.StopLast)
      ensures w == old(threads)[|old(threads)| - 1] && w in stopped
      ensures asleep == {} && woken == old(woken) + old(asleep)
    {
      ReachableNext(Tables(), Event.StopLast);
      w := threads[|threads| - 1];
      threads := threads[..|threads| - 1];
      stopped := stopped + {w};
      asleep, woken := {}, woken + asleep;
    }

    method ClearBackLog()
      requires Valid()
      modifies `queue
      ensures Valid() && Tables() == Next(old(Tables()), Event.ClearBackLog) && queue == []
    {
      ReachableNext(Tables(), Event.ClearBackLog);
      queue := [];
    }
  }
}
