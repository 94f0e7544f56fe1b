/** Which reindex runs next, and what becomes of its result (src/Project.cpp, src/IndexerJob.cpp). */
module JobProtocol {
  import opened Locations

  /** What a file is compiled with (SourceInformation and the job flags). */
  type Args = seq<string>

  type JobId = nat

  datatype Job = Job(file: FileId, args: Args, started: bool, aborted: bool)

  /** What became of the last request for a file. */
  datatype Status = Owed | Running | Done | GaveUp

  /** jobs are the job objects alive in the pool; current, pending and data are mJobs,
      mPendingJobs and mPendingData; data keeps the arguments a result was computed with.
      A restart is an index() call onJobFinished has decided on and not made yet. */
  datatype State = State(
    jobs: map<JobId, Job>, next: JobId,
    current: map<FileId, JobId>, sources: map<FileId, Args>,
    pending: map<FileId, Args>, data: map<FileId, Args>,
    restarts: seq<(FileId, Args)>)

  /** A bookkeeping of the run: what became of each request, which results that answer it are in
      the index, by their arguments, and which arguments were ever asked for. */
  datatype History = History(
    status: map<FileId, Status>, written: map<FileId, Args>, asked: set<(FileId, Args)>)

  datatype Event =
    | Request(file: FileId, args: Args)
    | Restart(at: nat)    // the scheduler lets any restart go next
    | Start(job: JobId)
    | AbortSelf(job: JobId)
    | Finish(job: JobId)
    | Write

  const START := State(map[], 0, map[], map[], map[], map[], [])
  const NOTHING_YET := History(map[], map[], {})

  // --- The steps ---

  /** index(). */
  function Index(s: State, f: FileId, c: Args): State {
    if f in s.current && s.current[f] in s.jobs then
      var j := s.current[f];
      var job := s.jobs[j];
      // abortIfStarted
      var job' := if job.started then job.(aborted := true) else job;
      s.(jobs := s.jobs[j := job'], pending := if job'.aborted then s.pending[f := c] else s.pending)
    else
      s.(jobs := s.jobs[s.next := Job(f, c, false, false)], next := s.next + 1,
         current := s.current[f := s.next], sources := s.sources[f := c], data := s.data - {f})
  }

  /** onJobFinished(), up to the point where it lets go of the lock. */
  function Finished(s: State, j: JobId): State
    requires j in s.jobs
  {
    var job := s.jobs[j];
    var f := job.file;
    var current := if f in s.current && s.current[f] == j then s.current - {f} else s.current;
    if job.aborted then
      s.(jobs := s.jobs - {j}, current := current, pending := s.pending - {f},
         restarts := if f in s.pending then s.restarts + [(f, s.pending[f])] else s.restarts)
    else
      s.(jobs := s.jobs - {j}, current := current, data := s.data[f := job.args])
  }

  predicate Enabled(s: State, e: Event) {
    match e
    case Request(f, c) => true
    case Restart(i) => i < |s.restarts|
    case Start(j) => j in s.jobs && !s.jobs[j].started && !s.jobs[j].aborted
    case AbortSelf(j) => j in s.jobs && s.jobs[j].started && !s.jobs[j].aborted
    case Finish(j) => j in s.jobs && s.jobs[j].started
    case Write => s.current == map[] && s.data != map[]
  }

  /** A restart leaves those in flight. */
  function Taken(s: State, i: nat): State
    requires i < |s.restarts|
  {
    s.(restarts := s.restarts[..i] + s.restarts[i + 1..])
  }

  function Next(s: State, e: Event): State
    requires Enabled(s, e)
  {
    match e
    case Request(f, c) => Index(s, f, c)
    case Restart(i) => Index(Taken(s, i), s.restarts[i].0, s.restarts[i].1)
    case Start(j) => s.(jobs := s.jobs[j := s.jobs[j].(started := true)])
    case AbortSelf(j) => s.(jobs := s.jobs[j := s.jobs[j].(aborted := true)])
    case Finish(j) => Finished(s, j)
    case Write => s.(data := map[])
  }

  /** How the bookkeeping follows a step. */
  function Record(h: History, s: State, e: Event): History
    requires Enabled(s, e)
  {
    match e
    case Request(f, c) => History(h.status[f := Owed], h.written - {f}, h.asked + {(f, c)})
    case Restart(i) => var f := s.restarts[i].0; h.(status := h.status[f := Owed], written := h.written - {f})
    case Start(j) => h.(status := h.status[s.jobs[j].file := Running])
    case AbortSelf(j) => h.(status := h.status[s.jobs[j].file := GaveUp])
    case Finish(j) => if s.jobs[j].aborted then h else h.(status := h.status[s.jobs[j].file := Done])
    case Write => h.(written := h.written + s.data)
  }

  // --- What every step keeps ---

  /** There is exactly one live job for each file in mJobs, and no other. */
  predicate JobsFiled(s: State) {
    && (forall j :: j in s.jobs ==> j < s.next && s.jobs[j].file in s.current && s.current[s.jobs[j].file] == j)
    && (forall f :: f in s.current ==> s.current[f] in s.jobs && s.jobs[s.current[f]].file == f)
  }

  predicate Restarting(s: State, f: FileId) {
    exists i :: 0 <= i < |s.restarts| && s.restarts[i].0 == f
  }

  /** What the tables say about one file: the job in mJobs, the pending entry behind it, the
      result that waits to be written, and what became of the last request. */
  predicate FileHolds(s: State, h: History, f: FileId)
    requires JobsFiled(s)
  {
    if f in s.current then
      var job := s.jobs[s.current[f]];
      && f !in s.data && f in h.status
      && (if !job.started then !job.aborted && f !in s.pending && h.status[f] == Owed
          else if !job.aborted then f !in s.pending && h.status[f] == Running
          else h.status[f] == if f in s.pending then Owed else GaveUp)
    else
      && f !in s.pending
      && (f in s.data ==> f in h.status && h.status[f] == Done)
      && (f in h.status ==> match h.status[f]
            case Owed => Restarting(s, f)
            case Running => false
            case Done => f in s.data || f in h.written
            case GaveUp => true)
  }

  ghost predicate Inv(s: State, h: History) {
    JobsFiled(s) && forall f :: FileHolds(s, h, f)
  }

  /** Whatever a step does not touch about a file goes on holding. */
  lemma Untouched(s: State, h: History, s': State, h': History, f: FileId)
    requires JobsFiled(s) && JobsFiled(s') && FileHolds(s, h, f)
    requires f in s.current <==> f in s'.current
    requires f in s.current ==> s.jobs[s.current[f]] == s'.jobs[s'.current[f]]
    requires f in s.pending <==> f in s'.pending
    requires f in s.data <==> f in s'.data
    requires f in h.status <==> f in h'.status
    requires f in h.status ==> h.status[f] == h'.status[f]
    requires f in h.written ==> f in h'.written
    requires Restarting(s, f) ==> Restarting(s', f)
    ensures FileHolds(s', h', f)
  {
  }

  lemma IndexKeepsFiled(s: State, f: FileId, c: Args)
    requires JobsFiled(s)
    ensures JobsFiled(Index(s, f, c))
  {
  }

  lemma IndexKeeps(s: State, h: History, f: FileId, c: Args, s': State, h': History)
    requires JobsFiled(s) && forall g :: g != f ==> FileHolds(s, h, g)
    requires f in s.current ==> FileHolds(s, h, f)
    requires f !in s.current ==> f !in s.pending
    requires s' == Index(s, f, c)
    requires h'.status == h.status[f := Owed] && h'.written == h.written - {f}
    ensures Inv(s', h')
  {
    IndexKeepsFiled(s, f, c);
    forall g ensures FileHolds(s', h', g) {
      if g != f {
        Untouched(s, h, s', h', g);
      }
    }
  }

  lemma FinishKeepsFiled(s: State, j: JobId)
    requires JobsFiled(s) && j in s.jobs
    ensures JobsFiled(Finished(s, j))
  {
  }

  lemma FinishKeeps(s: State, h: History, j: JobId, s': State, h': History)
    requires Inv(s, h) && Enabled(s, Finish(j))
    requires s' == Finished(s, j) && h' == Record(h, s, Finish(j))
    ensures Inv(s', h')
  {
    FinishKeepsFiled(s, j);
    var f := s.jobs[j].file;
    assert FileHolds(s, h, f);
    forall g ensures FileHolds(s', h', g) {
      assert s.restarts <= s'.restarts;
      assert FileHolds(s, h, g);
      if g != f {
        if Restarting(s, g) {
          var i :| 0 <= i < |s.restarts| && s.restarts[i].0 == g;
          assert s'.restarts[i].0 == g;
        }
        Untouched(s, h, s', h', g);
      } else if f in s.pending {
        assert s'.restarts[|s.restarts|].0 == f;
      }
    }
  }

  /** A job alone changes a flag. */
  lemma FlagKeeps(s: State, h: History, e: Event, j: JobId)
    requires Inv(s, h) && Enabled(s, e) && (e == Start(j) || e == AbortSelf(j))
    ensures Inv(Next(s, e), Record(h, s, e))
  {
    var f := s.jobs[j].file;
    var s', h' := Next(s, e), Record(h, s, e);
    assert FileHolds(s, h, f);
    forall g ensures FileHolds(s', h', g) {
      assert FileHolds(s, h, g);
      if g != f {
        Untouched(s, h, s', h', g);
      }
    }
  }

  /** Taking a restart out leaves all files but its own as they were. */
  lemma TakenKeeps(s: State, h: History, i: nat)
    requires Inv(s, h) && i < |s.restarts|
    ensures JobsFiled(Taken(s, i)) && forall g :: g != s.restarts[i].0 ==> FileHolds(Taken(s, i), h, g)
    ensures s.restarts[i].0 in s.current ==> FileHolds(Taken(s, i), h, s.restarts[i].0)
  {
    var s0 := Taken(s, i);
    forall g | g != s.restarts[i].0 ensures FileHolds(s0, h, g) {
      assert FileHolds(s, h, g);
      if Restarting(s, g) {
        var k :| 0 <= k < |s.restarts| && s.restarts[k].0 == g;
        assert s0.restarts[if k < i then k else k - 1].0 == g;
      }
      Untouched(s, h, s0, h, g);
    }
    assert FileHolds(s, h, s.restarts[i].0);
  }

  lemma NextKeeps(s: State, h: History, e: Event)
    requires Inv(s, h) && Enabled(s, e)
    ensures Inv(Next(s, e), Record(h, s, e))
  {
    match e {
      case Request(f, c) =>
        assert FileHolds(s, h, f);
        IndexKeeps(s, h, f, c, Next(s, e), Record(h, s, e));
      case Restart(i) =>
        var f := s.restarts[i].0;
        assert FileHolds(s, h, f);
        TakenKeeps(s, h, i);
        IndexKeeps(Taken(s, i), h, f, s.restarts[i].1, Next(s, e), Record(h, s, e));
      case Start(j) => FlagKeeps(s, h, e, j);
      case AbortSelf(j) => FlagKeeps(s, h, e, j);
      case Finish(j) => FinishKeeps(s, h, j, Next(s, e), Record(h, s, e));
      case Write =>
        forall g ensures FileHolds(Next(s, e), Record(h, s, e), g) {
          assert FileHolds(s, h, g);
        }
    }
  }

  // --- Whole runs ---

  predicate Legal(s: State, es: seq<Event>)
    decreases |es|
  {
    es == [] || (Enabled(s, es[0]) && Legal(Next(s, es[0]), es[1..]))
  }

  function Run(s: State, h: History, es: seq<Event>): (State, History)
    requires Legal(s, es)
    decreases |es|
  {
    if es == [] then (s, h) else Run(Next(s, es[0]), Record(h, s, es[0]), es[1..])
  }

  /** The jobs have arguments that were asked for, and mSources has those of each live job. */
  predicate JobsAsked(s: State, asked: set<(FileId, Args)>) {
    && (forall j :: j in s.jobs ==> (s.jobs[j].file, s.jobs[j].args) in asked)
    && (forall f :: f in s.current && s.current[f] in s.jobs ==>
                      f in s.sources && s.sources[f] == s.jobs[s.current[f]].args)
  }

  predicate EntriesAsked(m: map<FileId, Args>, asked: set<(FileId, Args)>) {
    forall f :: f in m ==> (f, m[f]) in asked
  }

  /** All arguments in the tables were asked for by somebody, for that file. */
  predicate ArgsAsked(s: State, h: History) {
    && JobsAsked(s, h.asked)
    && EntriesAsked(s.pending, h.asked) && EntriesAsked(s.data, h.asked) && EntriesAsked(h.written, h.asked)
    && (forall r :: r in s.restarts ==> r in h.asked)
  }

  lemma IndexKeepsJobsAsked(s: State, asked: set<(FileId, Args)>, f: FileId, c: Args)
    requires JobsFiled(s) && JobsAsked(s, asked) && (f, c) in asked
    ensures JobsAsked(Index(s, f, c), asked)
  {
    var s' := Index(s, f, c);
    forall j | j in s'.jobs ensures (s'.jobs[j].file, s'.jobs[j].args) in asked {
      assert j in s.jobs || (j == s.next && f !in s.current);
    }
  }

  lemma IndexKeepsAsked(s: State, h: History, f: FileId, c: Args, h': History)
    requires JobsFiled(s) && ArgsAsked(s, h) && h.asked <= h'.asked && (f, c) in h'.asked
    requires forall g :: g in h'.written ==> g in h.written && h'.written[g] == h.written[g]
    ensures ArgsAsked(Index(s, f, c), h')
  {
    IndexKeepsJobsAsked(s, h'.asked, f, c);
  }

  lemma FinishKeepsAsked(s: State, h: History, j: JobId)
    requires ArgsAsked(s, h) && j in s.jobs
    ensures ArgsAsked(Finished(s, j), h)
  {
    var f := s.jobs[j].file;
    forall r | r in Finished(s, j).restarts ensures r in h.asked {
      assert r in s.restarts || (f in s.pending && r == (f, s.pending[f]));
    }
  }

  lemma NextKeepsAsked(s: State, h: History, e: Event)
    requires Inv(s, h) && ArgsAsked(s, h) && Enabled(s, e)
    ensures ArgsAsked(Next(s, e), Record(h, s, e))
  {
    match e {
      case Request(f, c) => IndexKeepsAsked(s, h, f, c, Record(h, s, e));
      case Restart(i) =>
        assert s.restarts[i] in s.restarts;
        assert forall r :: r in Taken(s, i).restarts ==> r in s.restarts;
        IndexKeepsAsked(Taken(s, i), h, s.restarts[i].0, s.restarts[i].1, Record(h, s, e));
      case Finish(j) => FinishKeepsAsked(s, h, j);
      case _ =>
    }
  }

  lemma {:induction false} RunKeeps(s: State, h: History, es: seq<Event>)
    requires Inv(s, h) && ArgsAsked(s, h) && Legal(s, es)
    ensures Inv(Run(s, h, es).0, Run(s, h, es).1) && ArgsAsked(Run(s, h, es).0, Run(s, h, es).1)
    decreases |es|
  {
    if es != [] {
      NextKeeps(s, h, es[0]);
      NextKeepsAsked(s, h, es[0]);
      RunKeeps(Next(s, es[0]), Record(h, s, es[0]), es[1..]);
    }
  }

  /** Some reindex of f is sure to start that has not started yet. */
  predicate Scheduled(s: State, f: FileId) {
    || (f in s.current && s.current[f] in s.jobs && s.jobs[s.current[f]].file == f
        && (var job := s.jobs[s.current[f]]; if job.aborted then f in s.pending else !job.started))
    || Restarting(s, f)
  }

  /** In every run: a file requested after its last job started is scheduled; no two live jobs
      are for one file; no file has both a live job and a result that waits; and a result that
      waits answers the last request for its file, with arguments that were asked for it. */
  lemma NoRequestIsLost(es: seq<Event>, f: FileId)
    requires Legal(START, es)
    ensures var (s, h) := Run(START, NOTHING_YET, es);
      && (f in h.status && h.status[f] == Owed ==> Scheduled(s, f))
      && (forall j, k :: j in s.jobs && k in s.jobs && s.jobs[j].file == s.jobs[k].file ==> j == k)
      && s.current.Keys !! s.data.Keys
      && (f in s.data ==> f in h.status && h.status[f] == Done && (f, s.data[f]) in h.asked)
  {
    RunKeeps(START, NOTHING_YET, es);
    var (s, h) := Run(START, NOTHING_YET, es);
    assert FileHolds(s, h, f);
    forall g | g in s.current ensures g !in s.data {
      assert FileHolds(s, h, g);
    }
  }

  /** Nothing is left to do but to take a new request. */
  predicate Settled(s: State) {
    s.jobs == map[] && s.restarts == [] && s.data == map[]
  }

  /** In every run that has settled, the result of each file that was ever requested is in the
      index, and no request came after it was begun, unless its last job gave up by itself. */
  lemma SettledIsIndexed(es: seq<Event>, f: FileId)
    requires Legal(START, es) && Settled(Run(START, NOTHING_YET, es).0)
    ensures var h := Run(START, NOTHING_YET, es).1;
      f in h.status ==>
        (h.status[f] == Done && f in h.written && (f, h.written[f]) in h.asked) || h.status[f] == GaveUp
  {
    RunKeeps(START, NOTHING_YET, es);
    var (s, h) := Run(START, NOTHING_YET, es);
    assert FileHolds(s, h, f);
  }

  // --- Every run settles when requests stop ---

  function JobWeight(jobs: map<JobId, Job>, j: JobId): nat {
    if j !in jobs then 0
    else if jobs[j].aborted then 2
    else if jobs[j].started then 3
    else 4
  }

  function JobsWeight(jobs: map<JobId, Job>, n: nat): nat {
    if n == 0 then 0 else JobsWeight(jobs, n - 1) + JobWeight(jobs, n - 1)
  }

  /** A bound on the steps left to take without a new request. */
  function StepsLeft(s: State): nat {
    5 * |s.restarts| + 4 * |s.pending| + JobsWeight(s.jobs, s.next) + |s.data|
  }

  lemma {:induction false} OneJobChanges(a: map<JobId, Job>, b: map<JobId, Job>, j: JobId, n: nat)
    requires forall i :: i != j ==> JobWeight(a, i) == JobWeight(b, i)
    ensures JobsWeight(b, n) - JobsWeight(a, n) == if j < n then JobWeight(b, j) - JobWeight(a, j) else 0
  {
    if n > 0 {
      OneJobChanges(a, b, j, n - 1);
    }
  }

  lemma RemovedIsSmaller(m: map<FileId, Args>, f: FileId)
    ensures |m - {f}| == if f in m then |m| - 1 else |m|
  {
    assert (m - {f}).Keys == m.Keys - {f};
  }

  lemma AddedIsLarger(m: map<FileId, Args>, f: FileId, c: Args)
    ensures |m[f := c]| == if f in m then |m| else |m| + 1
  {
    assert m[f := c].Keys == m.Keys + {f};
  }

  lemma RestartCounts(s: State, f: FileId, c: Args)
    requires JobsFiled(s)
    ensures StepsLeft(Index(s, f, c)) < StepsLeft(s) + 5
  {
    var s' := Index(s, f, c);
    if f in s.current {
      OneJobChanges(s.jobs, s'.jobs, s.current[f], s.next);
      AddedIsLarger(s.pending, f, c);
    } else {
      OneJobChanges(s.jobs, s'.jobs, s.next, s.next);
      assert s'.next == s.next + 1 && s'.jobs[s.next] == Job(f, c, false, false);
      assert JobsWeight(s'.jobs, s'.next) == JobsWeight(s.jobs, s.next) + 4;
      RemovedIsSmaller(s.data, f);
    }
  }

  lemma FinishCounts(s: State, h: History, j: JobId)
    requires Inv(s, h) && Enabled(s, Finish(j))
    ensures StepsLeft(Finished(s, j)) < StepsLeft(s)
  {
    var f := s.jobs[j].file;
    assert FileHolds(s, h, f);
    JobLeaves(s.jobs, j, s.next);
    RemovedIsSmaller(s.pending, f);
    AddedIsLarger(s.data, f, s.jobs[j].args);
  }

  lemma JobLeaves(jobs: map<JobId, Job>, j: JobId, n: nat)
    requires j in jobs && j < n
    ensures JobsWeight(jobs - {j}, n) == JobsWeight(jobs, n) - JobWeight(jobs, j)
  {
    OneJobChanges(jobs, jobs - {j}, j, n);
  }

  lemma StepCounts(s: State, h: History, e: Event)
    requires Inv(s, h) && Enabled(s, e) && !e.Request?
    ensures StepsLeft(Next(s, e)) < StepsLeft(s)
  {
    match e {
      case Restart(i) => RestartCounts(Taken(s, i), s.restarts[i].0, s.restarts[i].1);
      case Start(j) => OneJobChanges(s.jobs, Next(s, e).jobs, j, s.next);
      case AbortSelf(j) => OneJobChanges(s.jobs, Next(s, e).jobs, j, s.next);
      case Finish(j) => FinishCounts(s, h, j);
      case Write =>
    }
  }

  lemma {:induction false} RunsOut(s: State, h: History, es: seq<Event>)
    requires Inv(s, h) && Legal(s, es) && forall e :: e in es ==> !e.Request?
    ensures |es| + StepsLeft(Run(s, h, es).0) <= StepsLeft(s)
    decreases |es|
  {
    if es != [] {
      assert es[0] in es;
      StepCounts(s, h, es[0]);
      NextKeeps(s, h, es[0]);
      RunsOut(Next(s, es[0]), Record(h, s, es[0]), es[1..]);
    }
  }

  /** After any run, once no more requests come, only so many steps are possible, in whatever
      order they happen, and until the state is settled one of them is. */
  lemma SettlesEventually(es: seq<Event>, more: seq<Event>)
    requires Legal(START, es) && Legal(Run(START, NOTHING_YET, es).0, more)
    requires forall e :: e in more ==> !e.Request?
    ensures var (s, h) := Run(START, NOTHING_YET, es);
      && |more| <= StepsLeft(s)
      && (Settled(Run(s, h, more).0) <==> forall e: Event :: Enabled(Run(s, h, more).0, e) ==> e.Request?)
  {
    RunKeeps(START, NOTHING_YET, es);
    var (s, h) := Run(START, NOTHING_YET, es);
    RunsOut(s, h, more);
    RunKeeps(s, h, more);
    CanStep(Run(s, h, more).0, Run(s, h, more).1);
  }

  lemma CanStep(s: State, h: History)
    requires Inv(s, h)
    ensures Settled(s) <==> forall e: Event :: Enabled(s, e) ==> e.Request?
  {
    if s.restarts != [] {
      assert Enabled(s, Restart(0));
    } else if s.jobs != map[] {
      var j :| j in s.jobs;
      assert FileHolds(s, h, s.jobs[j].file);
      assert Enabled(s, Start(j)) || Enabled(s, Finish(j));
    } else if s.data != map[] {
      assert s.current == map[];
      assert Enabled(s, Write);
    }
  }

  // --- The object ---

  /** The job side of Project, under its mutex. Its methods may be called in any order, as the
      scheduler pleases; each makes one step of the model. */
  class Reindexer {
    var jobs: map<JobId, Job>
    var next: JobId
    var current: map<FileId, JobId>
    var sources: map<FileId, Args>
    var pending: map<FileId, Args>
    var data: map<FileId, Args>
    var restarts: seq<(FileId, Args)>
    ghost var history: History

    ghost function Tables(): State
      reads this
    {
      State(jobs, next, current, sources, pending, data, restarts)
    }

    ghost predicate Valid()
      reads this
    {
      Inv(Tables(), history) && ArgsAsked(Tables(), history)
    }

    ghost predicate Stepped(s: State, h: History, e: Event)
      requires Enabled(s, e)
      reads this
    {
      Tables() == Next(s, e) && history == Record(h, s, e)
    }

    constructor ()
      ensures Valid() && Tables() == START && history == NOTHING_YET
    {
      jobs, next, current, sources, pending, data, restarts := map[], 0, map[], map[], map[], map[], [];
      history := NOTHING_YET;
    }

    method AbortIfStarted(j: JobId) returns (aborted: bool)
      requires j in jobs
      modifies `jobs
      ensures jobs == old(jobs)[j := old(jobs)[j].(aborted := old(jobs)[j].started || old(jobs)[j].aborted)]
      ensures aborted == jobs[j].aborted
    {
      if jobs[j].started {
        jobs := jobs[j := jobs[j].(aborted := true)];
      } else {
        assert jobs[j := jobs[j]] == jobs;
      }
      aborted := jobs[j].aborted;
    }

    /** The body of index(). */
    method Enter(f: FileId, c: Args)
      requires JobsFiled(Tables())
      modifies `jobs, `next, `current, `sources, `pending, `data
      ensures Tables() == Index(old(Tables()), f, c)
    {
      if f in current {
        var aborted := AbortIfStarted(current[f]);
        if aborted {
          pending := pending[f := c];
        }
        return;
      }
      sources := sources[f := c];
      data := data - {f};
      jobs := jobs[next := Job(f, c, false, false)];
      current := current[f := next];
      next := next + 1;
    }

    method IndexFile(f: FileId, c: Args)
      requires Valid()
      modifies this
      ensures Valid() && Stepped(old(Tables()), old(history), Request(f, c))
    {
      NextKeeps(Tables(), history, Request(f, c));
      NextKeepsAsked(Tables(), history, Request(f, c));
      history := Record(history, Tables(), Request(f, c));
      Enter(f, c);
    }

    method RestartPending(i: nat)
      requires Valid() && Enabled(Tables(), Restart(i))
      modifies this
      ensures Valid() && Stepped(old(Tables()), old(history), Restart(i))
    {
      NextKeeps(Tables(), history, Restart(i));
      NextKeepsAsked(Tables(), history, Restart(i));
      history := Record(history, Tables(), Restart(i));
      var r := restarts[i];
      restarts := restarts[..i] + restarts[i + 1..];
      Enter(r.0, r.1);
    }

    method StartJob(j: JobId)
      requires Valid() && Enabled(Tables(), Start(j))
      modifies this
      ensures Valid() && Stepped(old(Tables()), old(history), Start(j))
    {
      NextKeeps(Tables(), history, Start(j));
      NextKeepsAsked(Tables(), history, Start(j));
      history := Record(history, Tables(), Start(j));
      jobs := jobs[j := jobs[j].(started := true)];
    }

    method AbortJob(j: JobId)
      requires Valid() && Enabled(Tables(), AbortSelf(j))
      modifies this
      ensures Valid() && Stepped(old(Tables()), old(history), AbortSelf(j))
    {
      NextKeeps(Tables(), history, AbortSelf(j));
      NextKeepsAsked(Tables(), history, AbortSelf(j));
      history := Record(history, Tables(), AbortSelf(j));
      jobs := jobs[j := jobs[j].(aborted := true)];
    }

    /** The body of onJobFinished(): an aborted job leaves its file without a result, and makes
        room for the pending restart; another leaves its result. */
    method Leave(j: JobId)
      requires JobsFiled(Tables()) && j in jobs
      modifies `jobs, `current, `pending, `data, `restarts
      ensures Tables() == Finished(old(Tables()), j)
    {
      var job := jobs[j];
      var f := job.file;
      // the assertion of the source
      assert f in current && current[f] == j;
      jobs := jobs - {j};
      if job.aborted {
        if f in pending {
          restarts := restarts + [(f, pending[f])];
        }
        pending := pending - {f};
        if f in current && current[f] == j {
          current := current - {f};
        }
      } else {
        current := current - {f};
        data := data[f := job.args];
      }
    }

    method OnJobFinished(j: JobId)
      requires Valid() && Enabled(Tables(), Finish(j))
      modifies this
      ensures Valid() && Stepped(old(Tables()), old(history), Finish(j))
      ensures old(jobs)[j].aborted ==> data == old(data)
    {
      NextKeeps(Tables(), history, Finish(j));
      NextKeepsAsked(Tables(), history, Finish(j));
      history := Record(history, Tables(), Finish(j));
      Leave(j);
    }

    /** finish(): writes once no job is left. */
    method FinishAll() returns (done: bool)
      requires Valid()
      modifies this
      ensures Valid() && done == (old(current) == map[])
      ensures if done then data == map[] && history.written == old(history.written) + old(data)
              else Tables() == old(Tables()) && history == old(history)
    {
      done := current == map[];
      if done {
        if data != map[] {
          NextKeeps(Tables(), history, Write);
          NextKeepsAsked(Tables(), history, Write);
          history := Record(history, Tables(), Write);
          data := map[];
        } else {
          assert history.written + data == history.written;
        }
      }
    }
  }
}
