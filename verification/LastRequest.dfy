/** Whether a file ends up compiled as was last asked (index() and onJobFinished() in
    src/Project.cpp). */
module LastRequest {
  import opened JobProtocol
  import opened Locations

  predicate NoneFor(es: seq<Event>, f: FileId) {
    forall e :: e in es ==> !(e.Request? && e.file == f)
  }

  /** The last request for f was answered: its result is in the index with these arguments, or
      its last job gave up by itself. */
  predicate Answered(h: History, f: FileId, c: Args) {
    f in h.status && (h.status[f] == GaveUp || (f in h.written && h.written[f] == c))
  }

  /** No job waits to start that has other arguments, and no restart is in flight with others. */
  predicate Clear(s: State, f: FileId, c: Args) {
    && !(f in s.current && s.current[f] in s.jobs
         && !s.jobs[s.current[f]].started && s.jobs[s.current[f]].args != c)
    && (forall r :: r in s.restarts ==> r.0 == f ==> r.1 == c)
  }

  // --- With a clear way nothing but these arguments is left ---

  predicate AllSay(m: map<FileId, Args>, f: FileId, c: Args) {
    f in m ==> m[f] == c
  }

  /** All there is of f has these arguments, except for a job that was aborted. */
  predicate ArgsAre(s: State, h: History, f: FileId, c: Args) {
    && (f in s.current && s.current[f] in s.jobs ==>
          s.jobs[s.current[f]].aborted || s.jobs[s.current[f]].args == c)
    && AllSay(s.pending, f, c) && AllSay(s.data, f, c) && AllSay(h.written, f, c)
    && (forall r :: r in s.restarts ==> r.0 == f ==> r.1 == c)
  }

  lemma RequestSetsArgs(s: State, h: History, f: FileId, c: Args)
    requires Inv(s, h) && Clear(s, f, c)
    ensures ArgsAre(Index(s, f, c), Record(h, s, Request(f, c)), f, c)
  {
    assert FileHolds(s, h, f);
  }

  lemma FinishKeepsArgs(s: State, h: History, j: JobId, f: FileId, c: Args)
    requires Inv(s, h) && ArgsAre(s, h, f, c) && Enabled(s, Finish(j))
    ensures ArgsAre(Finished(s, j), Record(h, s, Finish(j)), f, c)
  {
    var g := s.jobs[j].file;
    forall r | r in Finished(s, j).restarts && r.0 == f ensures r.1 == c {
      assert r in s.restarts || (g in s.pending && r == (g, s.pending[g]));
    }
  }

  lemma IndexKeepsArgs(s: State, h: History, g: FileId, d: Args, h': History, f: FileId, c: Args)
    requires JobsFiled(s) && ArgsAre(s, h, f, c) && h'.written == h.written - {g} && (g == f ==> d == c)
    ensures ArgsAre(Index(s, g, d), h', f, c)
  {
  }

  lemma NextKeepsArgs(s: State, h: History, e: Event, f: FileId, c: Args)
    requires Inv(s, h) && ArgsAre(s, h, f, c) && Enabled(s, e) && !(e.Request? && e.file == f)
    ensures ArgsAre(Next(s, e), Record(h, s, e), f, c)
  {
    match e {
      case Request(g, d) => IndexKeepsArgs(s, h, g, d, Record(h, s, e), f, c);
      case Restart(i) =>
        assert s.restarts[i] in s.restarts;
        assert forall r :: r in Taken(s, i).restarts ==> r in s.restarts;
        IndexKeepsArgs(Taken(s, i), h, s.restarts[i].0, s.restarts[i].1, Record(h, s, e), f, c);
      case Finish(j) => FinishKeepsArgs(s, h, j, f, c);
      case _ =>
    }
  }

  lemma {:induction false} RunKeepsArgs(s: State, h: History, es: seq<Event>, f: FileId, c: Args)
    requires Inv(s, h) && ArgsAsked(s, h) && ArgsAre(s, h, f, c) && Legal(s, es) && NoneFor(es, f)
    ensures ArgsAre(Run(s, h, es).0, Run(s, h, es).1, f, c)
    decreases |es|
  {
    if es != [] {
      assert es[0] in es;
      NextKeepsArgs(s, h, es[0], f, c);
      NextKeeps(s, h, es[0]);
      NextKeepsAsked(s, h, es[0]);
      RunKeepsArgs(Next(s, es[0]), Record(h, s, es[0]), es[1..], f, c);
    }
  }

  // --- Without one other arguments can win ---

  ghost predicate EndsWith(s: State, h: History, more: seq<Event>, f: FileId, d: Args) {
    && Legal(s, more) && (forall e :: e in more ==> !e.Request?)
    && var (s', h') := Run(s, h, more);
       Settled(s') && f in h'.status && h'.status[f] == Done && f in h'.written && h'.written[f] == d
  }

  /** Some run without requests settles with these arguments for f in the index. */
  ghost predicate CanEndWith(s: State, h: History, f: FileId, d: Args) {
    exists more :: EndsWith(s, h, more, f, d)
  }

  lemma StepCan(s: State, h: History, e: Event, f: FileId, d: Args)
    requires Enabled(s, e) && !e.Request? && CanEndWith(Next(s, e), Record(h, s, e), f, d)
    ensures CanEndWith(s, h, f, d)
  {
    var more :| EndsWith(Next(s, e), Record(h, s, e), more, f, d);
    assert ([e] + more)[0] == e && ([e] + more)[1..] == more;
    assert EndsWith(s, h, [e] + more, f, d);
  }

  /** The result of f is there, with these arguments, and nothing else of f is. */
  ghost predicate Quiet(s: State, h: History, f: FileId, d: Args) {
    && Inv(s, h) && f !in s.current && !Restarting(s, f)
    && f in h.status && h.status[f] == Done
    && (if f in s.data then s.data[f] == d else f in h.written && h.written[f] == d)
  }

  lemma QuietNext(s: State, h: History, e: Event, f: FileId, d: Args)
    requires Quiet(s, h, f, d) && Enabled(s, e) && !e.Request?
    ensures Quiet(Next(s, e), Record(h, s, e), f, d)
  {
    NextKeeps(s, h, e);
    assert FileHolds(s, h, f);
    match e {
      case Restart(i) =>
        assert s.restarts[i].0 != f;
        assert forall r :: r in Taken(s, i).restarts ==> r in s.restarts;
      case Finish(j) =>
        assert s.jobs[j].file != f;
        assert forall k :: 0 <= k < |s.restarts| ==> s.restarts[k].0 != f;
      case _ =>
    }
  }

  lemma {:induction false} QuietCan(s: State, h: History, f: FileId, d: Args)
    requires Quiet(s, h, f, d)
    ensures CanEndWith(s, h, f, d)
    decreases StepsLeft(s)
  {
    CanStep(s, h);
    if Settled(s) {
      assert EndsWith(s, h, [], f, d);
    } else {
      var e :| Enabled(s, e) && !e.Request?;
      QuietNext(s, h, e, f, d);
      StepCounts(s, h, e);
      QuietCan(Next(s, e), Record(h, s, e), f, d);
      StepCan(s, h, e, f, d);
    }
  }

  /** A started job that nobody aborts ends with its arguments. */
  lemma StartedCan(s: State, h: History, f: FileId)
    requires Inv(s, h) && f in s.current && !Restarting(s, f)
    requires var job := s.jobs[s.current[f]]; job.started && !job.aborted
    ensures CanEndWith(s, h, f, s.jobs[s.current[f]].args)
  {
    var e := Finish(s.current[f]);
    var d := s.jobs[s.current[f]].args;
    assert FileHolds(s, h, f);
    NextKeeps(s, h, e);
    assert Quiet(Next(s, e), Record(h, s, e), f, d);
    QuietCan(Next(s, e), Record(h, s, e), f, d);
    StepCan(s, h, e, f, d);
  }

  lemma UnstartedCan(s: State, h: History, f: FileId)
    requires Inv(s, h) && f in s.current && !Restarting(s, f) && !s.jobs[s.current[f]].started
    ensures CanEndWith(s, h, f, s.jobs[s.current[f]].args)
  {
    assert FileHolds(s, h, f);
    var e := Start(s.current[f]);
    NextKeeps(s, h, e);
    StartedCan(Next(s, e), Record(h, s, e), f);
    StepCan(s, h, e, f, s.jobs[s.current[f]].args);
  }

  /** The i-th restart in flight is the only one for its file. */
  ghost predicate Lone(s: State, i: nat) {
    i < |s.restarts| && forall k :: 0 <= k < |s.restarts| && k != i ==> s.restarts[k].0 != s.restarts[i].0
  }

  lemma TakenIsOut(s: State, i: nat)
    requires Lone(s, i)
    ensures !Restarting(Taken(s, i), s.restarts[i].0)
  {
    var s' := Taken(s, i);
    forall k | 0 <= k < |s'.restarts| ensures s'.restarts[k].0 != s.restarts[i].0 {
      assert s'.restarts[k] == s.restarts[if k < i then k else k + 1];
    }
  }

  lemma RestartCan(s: State, h: History, i: nat)
    requires Inv(s, h) && Lone(s, i) && s.restarts[i].0 !in s.current
    ensures CanEndWith(s, h, s.restarts[i].0, s.restarts[i].1)
  {
    var f, d := s.restarts[i].0, s.restarts[i].1;
    NextKeeps(s, h, Restart(i));
    TakenIsOut(s, i);
    assert !Restarting(Next(s, Restart(i)), f);
    UnstartedCan(Next(s, Restart(i)), Record(h, s, Restart(i)), f);
    StepCan(s, h, Restart(i), f, d);
  }

  lemma PendingCan(s: State, h: History, f: FileId)
    requires Inv(s, h) && f in s.current && s.jobs[s.current[f]].aborted && f in s.pending && !Restarting(s, f)
    ensures CanEndWith(s, h, f, s.pending[f])
  {
    assert FileHolds(s, h, f);
    var e := Finish(s.current[f]);
    var s' := Next(s, e);
    NextKeeps(s, h, e);
    assert forall k :: 0 <= k < |s.restarts| ==> s.restarts[k].0 != f;
    assert s'.restarts[|s.restarts|] == (f, s.pending[f]);
    RestartCan(s', Record(h, s, e), |s.restarts|);
    StepCan(s, h, e, f, s.pending[f]);
  }

  /** A restart aborts a started job, or finds it aborted, and takes its place. */
  lemma OvertakeCan(s: State, h: History, i: nat)
    requires Inv(s, h) && Lone(s, i) && s.restarts[i].0 in s.current
    requires s.jobs[s.current[s.restarts[i].0]].started
    ensures CanEndWith(s, h, s.restarts[i].0, s.restarts[i].1)
  {
    var f, d := s.restarts[i].0, s.restarts[i].1;
    assert FileHolds(s, h, f);
    NextKeeps(s, h, Restart(i));
    TakenIsOut(s, i);
    assert !Restarting(Next(s, Restart(i)), f);
    PendingCan(Next(s, Restart(i)), Record(h, s, Restart(i)), f);
    StepCan(s, h, Restart(i), f, d);
  }

  lemma LoneCan(s: State, h: History, i: nat)
    requires Inv(s, h) && Lone(s, i)
    ensures CanEndWith(s, h, s.restarts[i].0, s.restarts[i].1)
  {
    var f, d := s.restarts[i].0, s.restarts[i].1;
    if f !in s.current {
      RestartCan(s, h, i);
    } else if s.jobs[s.current[f]].started {
      OvertakeCan(s, h, i);
    } else {
      assert FileHolds(s, h, f);
      var e := Start(s.current[f]);
      NextKeeps(s, h, e);
      OvertakeCan(Next(s, e), Record(h, s, e), i);
      StepCan(s, h, e, f, d);
    }
  }

  /** A restart that the scheduler keeps for last has its arguments win. */
  lemma {:induction false} KeptForLastCan(s: State, h: History, i: nat)
    requires Inv(s, h) && i < |s.restarts|
    ensures CanEndWith(s, h, s.restarts[i].0, s.restarts[i].1)
    decreases |s.restarts|
  {
    if Lone(s, i) {
      LoneCan(s, h, i);
    } else {
      var k :| 0 <= k < |s.restarts| && k != i && s.restarts[k].0 == s.restarts[i].0;
      var s' := Next(s, Restart(k));
      var i' := if i < k then i else i - 1;
      NextKeeps(s, h, Restart(k));
      assert s'.restarts == Taken(s, k).restarts && s'.restarts[i'] == s.restarts[i];
      KeptForLastCan(s', Record(h, s, Restart(k)), i');
      StepCan(s, h, Restart(k), s.restarts[i].0, s.restarts[i].1);
    }
  }

  /** A job that waits to start has its arguments win if all restarts come before it starts. */
  lemma {:induction false} WaitingCan(s: State, h: History, f: FileId)
    requires Inv(s, h) && f in s.current && !s.jobs[s.current[f]].started
    ensures CanEndWith(s, h, f, s.jobs[s.current[f]].args)
    decreases |s.restarts|
  {
    if Restarting(s, f) {
      var k :| 0 <= k < |s.restarts| && s.restarts[k].0 == f;
      assert FileHolds(s, h, f);
      NextKeeps(s, h, Restart(k));
      assert Next(s, Restart(k)).restarts == Taken(s, k).restarts;
      WaitingCan(Next(s, Restart(k)), Record(h, s, Restart(k)), f);
      StepCan(s, h, Restart(k), f, s.jobs[s.current[f]].args);
    } else {
      UnstartedCan(s, h, f);
    }
  }

  lemma OthersCan(s: State, h: History, f: FileId, c: Args) returns (d: Args)
    requires Inv(s, h) && !Clear(s, f, c)
    ensures d != c && CanEndWith(Index(s, f, c), Record(h, s, Request(f, c)), f, d)
  {
    var s', h' := Index(s, f, c), Record(h, s, Request(f, c));
    assert FileHolds(s, h, f);
    NextKeeps(s, h, Request(f, c));
    if f in s.current && !s.jobs[s.current[f]].started && s.jobs[s.current[f]].args != c {
      d := s.jobs[s.current[f]].args;
      WaitingCan(s', h', f);
    } else {
      var r :| r in s.restarts && r.0 == f && r.1 != c;
      var i :| 0 <= i < |s.restarts| && s.restarts[i] == r;
      d := r.1;
      KeptForLastCan(s', h', i);
    }
  }

  // --- Exactly when the last request wins ---

  /** After any run: if no more requests for a file come after this one, every run that settles
      has answered it with its arguments, or its last job gave up, exactly if at the time of the
      request no job of the file waited to start with other arguments, and no restart of the file
      was in flight with others. */
  lemma LastRequestWinsIff(es: seq<Event>, f: FileId, c: Args)
    requires Legal(START, es)
    ensures var (s, h) := Run(START, NOTHING_YET, es);
      var (s', h') := (Index(s, f, c), Record(h, s, Request(f, c)));
      Clear(s, f, c) <==>
      forall more :: Legal(s', more) && NoneFor(more, f) && Settled(Run(s', h', more).0) ==>
        Answered(Run(s', h', more).1, f, c)
  {
    RunKeeps(START, NOTHING_YET, es);
    var (s, h) := Run(START, NOTHING_YET, es);
    if Clear(s, f, c) {
      forall more | Legal(Index(s, f, c), more) && NoneFor(more, f)
        && Settled(Run(Index(s, f, c), Record(h, s, Request(f, c)), more).0)
        ensures Answered(Run(Index(s, f, c), Record(h, s, Request(f, c)), more).1, f, c)
      {
        ClearIsAnswered(s, h, f, c, more);
      }
    } else {
      var d := OthersCan(s, h, f, c);
      var more :| EndsWith(Index(s, f, c), Record(h, s, Request(f, c)), more, f, d);
      assert NoneFor(more, f);
      assert !Answered(Run(Index(s, f, c), Record(h, s, Request(f, c)), more).1, f, c);
    }
  }

  lemma ClearIsAnswered(s: State, h: History, f: FileId, c: Args, more: seq<Event>)
    requires Inv(s, h) && ArgsAsked(s, h) && Clear(s, f, c)
    requires Legal(Index(s, f, c), more) && NoneFor(more, f)
    requires Settled(Run(Index(s, f, c), Record(h, s, Request(f, c)), more).0)
    ensures Answered(Run(Index(s, f, c), Record(h, s, Request(f, c)), more).1, f, c)
  {
    var s', h' := Index(s, f, c), Record(h, s, Request(f, c));
    RequestSetsArgs(s, h, f, c);
    NextKeeps(s, h, Request(f, c));
    NextKeepsAsked(s, h, Request(f, c));
    RunKeeps(s', h', more);
    RunKeepsArgs(s', h', more, f, c);
    StatusStays(s', h', more, f);
    assert FileHolds(Run(s', h', more).0, Run(s', h', more).1, f);
  }

  lemma {:induction false} StatusStays(s: State, h: History, es: seq<Event>, f: FileId)
    requires Legal(s, es) && f in h.status
    ensures f in Run(s, h, es).1.status
    decreases |es|
  {
    if es != [] {
      StatusStays(Next(s, es[0]), Record(h, s, es[0]), es[1..], f);
    }
  }

  // --- Two runs in which the last request does not win ---

  lemma RunOf(s: State, h: History, e: Event, es: seq<Event>)
    requires Enabled(s, e) && Legal(Next(s, e), es)
    ensures Legal(s, [e] + es) && Run(s, h, [e] + es) == Run(Next(s, e), Record(h, s, e), es)
  {
    assert ([e] + es)[1..] == es;
  }

  lemma RunOfThree(s: State, h: History, d: Event, e: Event, g: Event, es: seq<Event>)
    requires Enabled(s, d) && Enabled(Next(s, d), e) && Enabled(Next(Next(s, d), e), g)
    requires Legal(Next(Next(Next(s, d), e), g), es)
    ensures Legal(s, [d, e, g] + es)
    ensures var (s1, h1) := (Next(s, d), Record(h, s, d));
      var (s2, h2) := (Next(s1, e), Record(h1, s1, e));
      Run(s, h, [d, e, g] + es) == Run(Next(s2, g), Record(h2, s2, g), es)
  {
    var s1, h1 := Next(s, d), Record(h, s, d);
    var s2, h2 := Next(s1, e), Record(h1, s1, e);
    RunOf(s2, h2, g, es);
    RunOf(s1, h1, e, [g] + es);
    RunOf(s, h, d, [e] + ([g] + es));
    assert [d, e, g] + es == [d] + ([e] + ([g] + es));
  }

  /** The only job there is, the n-th, and what is queued behind it. */
  function Alone(n: JobId, job: Job, pending: map<FileId, Args>, restarts: seq<(FileId, Args)>): State {
    State(map[n := job], n + 1, map[job.file := n], map[job.file := job.args], pending, map[], restarts)
  }

  lemma JobIsWritten(f: FileId, n: JobId, d: Args, h: History)
    requires h.written == map[]
    ensures var s := Alone(n, Job(f, d, true, false), map[], []);
      && Legal(s, [Finish(n), Write]) && Settled(Run(s, h, [Finish(n), Write]).0)
      && Run(s, h, [Finish(n), Write]).1.written == map[f := d]
  {
    var s := Alone(n, Job(f, d, true, false), map[], []);
    var s1, h1 := Next(s, Finish(n)), Record(h, s, Finish(n));
    assert s1 == State(map[], n + 1, map[], map[f := d], map[], map[f := d], []);
    RunOf(s1, h1, Write, []);
    RunOf(s, h, Finish(n), [Write]);
    assert [Finish(n), Write] == [Finish(n)] + [Write];
  }

  ghost predicate SettlesWith(es: seq<Event>, f: FileId, d: Args) {
    && Legal(START, es) && Settled(Run(START, NOTHING_YET, es).0)
    && Run(START, NOTHING_YET, es).1.written == map[f := d]
  }

  /** A request that comes while a job waits to start is dropped. */
  lemma LaterArgsCanBeDropped(f: FileId, first: Args, second: Args)
    ensures SettlesWith([Request(f, first), Request(f, second), Start(0), Finish(0), Write], f, first)
  {
    var s1, h1 := Next(START, Request(f, first)), Record(NOTHING_YET, START, Request(f, first));
    assert s1 == Alone(0, Job(f, first, false, false), map[], []);
    var s2, h2 := Next(s1, Request(f, second)), Record(h1, s1, Request(f, second));
    assert s2 == s1;
    var s3, h3 := Next(s2, Start(0)), Record(h2, s2, Start(0));
    assert s3 == Alone(0, Job(f, first, true, false), map[], []);
    JobIsWritten(f, 0, first, h3);
    RunOfThree(START, NOTHING_YET, Request(f, first), Request(f, second), Start(0), [Finish(0), Write]);
    assert [Request(f, first), Request(f, second), Start(0)] + [Finish(0), Write]
        == [Request(f, first), Request(f, second), Start(0), Finish(0), Write];
  }

  /** The file has been indexed up to a job that a request aborted: what is left of it is a
      restart, which has yet to lock the mutex, with the arguments of that request. */
  function Aborted(f: FileId, a: Args, b: Args): State {
    State(map[], 1, map[], map[f := a], map[], map[], [(f, b)])
  }

  lemma BecomesAborted(f: FileId, a: Args, b: Args, es: seq<Event>) returns (h: History)
    requires Legal(Aborted(f, a, b), es)
    ensures h.written == map[]
    ensures var es' := [Request(f, a), Start(0), Request(f, b)] + ([Finish(0)] + es);
      Legal(START, es') && Run(START, NOTHING_YET, es') == Run(Aborted(f, a, b), h, es)
  {
    var s1, h1 := Next(START, Request(f, a)), Record(NOTHING_YET, START, Request(f, a));
    assert s1 == Alone(0, Job(f, a, false, false), map[], []);
    var s2, h2 := Next(s1, Start(0)), Record(h1, s1, Start(0));
    assert s2 == Alone(0, Job(f, a, true, false), map[], []);
    var s3, h3 := Next(s2, Request(f, b)), Record(h2, s2, Request(f, b));
    assert s3 == Alone(0, Job(f, a, true, true), map[f := b], []);
    assert Next(s3, Finish(0)) == Aborted(f, a, b);
    h := Record(h3, s3, Finish(0));
    RunOf(s3, h3, Finish(0), es);
    RunOfThree(START, NOTHING_YET, Request(f, a), Start(0), Request(f, b), [Finish(0)] + es);
  }

  /** The restart comes back after the job of a newer request has started, and aborts it. */
  lemma AbortsTheNewer(f: FileId, a: Args, b: Args, c: Args, h: History, es: seq<Event>) returns (h': History)
    requires h.written == map[]
    requires Legal(Alone(1, Job(f, c, true, true), map[f := b], []), es)
    ensures h'.written == map[]
    ensures var es' := [Request(f, c), Start(1), Restart(0)] + es;
      && Legal(Aborted(f, a, b), es')
      && Run(Aborted(f, a, b), h, es') == Run(Alone(1, Job(f, c, true, true), map[f := b], []), h', es)
  {
    var s := Aborted(f, a, b);
    var s1, h1 := Next(s, Request(f, c)), Record(h, s, Request(f, c));
    assert s1 == Alone(1, Job(f, c, false, false), map[], [(f, b)]);
    var s2, h2 := Next(s1, Start(1)), Record(h1, s1, Start(1));
    assert s2 == Alone(1, Job(f, c, true, false), map[], [(f, b)]);
    assert Next(s2, Restart(0)) == Alone(1, Job(f, c, true, true), map[f := b], []);
    h' := Record(h2, s2, Restart(0));
    RunOfThree(s, h, Request(f, c), Start(1), Restart(0), es);
  }

  /** The job that follows has the older arguments. */
  lemma StartsTheOlder(f: FileId, b: Args, c: Args, h: History, es: seq<Event>) returns (h': History)
    requires h.written == map[] && Legal(Alone(2, Job(f, b, true, false), map[], []), es)
    ensures h'.written == map[]
    ensures var es' := [Finish(1), Restart(0), Start(2)] + es;
      var s := Alone(1, Job(f, c, true, true), map[f := b], []);
      Legal(s, es') && Run(s, h, es') == Run(Alone(2, Job(f, b, true, false), map[], []), h', es)
  {
    var s := Alone(1, Job(f, c, true, true), map[f := b], []);
    var s1, h1 := Next(s, Finish(1)), Record(h, s, Finish(1));
    assert s1 == State(map[], 2, map[], map[f := c], map[], map[], [(f, b)]);
    var s2, h2 := Next(s1, Restart(0)), Record(h1, s1, Restart(0));
    assert s2 == Alone(2, Job(f, b, false, false), map[], []);
    assert Next(s2, Start(2)) == Alone(2, Job(f, b, true, false), map[], []);
    h' := Record(h2, s2, Start(2));
    RunOfThree(s, h, Finish(1), Restart(0), Start(2), es);
  }

  lemma OlderRunSettles(f: FileId, a: Args, b: Args, c: Args) returns (es: seq<Event>)
    ensures SettlesWith(es, f, b)
    ensures es == [Request(f, a), Start(0), Request(f, b)] + ([Finish(0)] + ([Request(f, c), Start(1), Restart(0)]
                    + ([Finish(1), Restart(0), Start(2)] + [Finish(2), Write])))
  {
    JobIsWritten(f, 2, b, NOTHING_YET);
    var rest := [Finish(1), Restart(0), Start(2)] + [Finish(2), Write];
    var _ := StartsTheOlder(f, b, c, NOTHING_YET, [Finish(2), Write]);
    var more := [Request(f, c), Start(1), Restart(0)] + rest;
    var _ := AbortsTheNewer(f, a, b, c, NOTHING_YET, rest);
    es := [Request(f, a), Start(0), Request(f, b)] + ([Finish(0)] + more);
    var h1 := BecomesAborted(f, a, b, more);
    var h2 := AbortsTheNewer(f, a, b, c, h1, rest);
    var h3 := StartsTheOlder(f, b, c, h2, [Finish(2), Write]);
    JobIsWritten(f, 2, b, h3);
  }

  /** A restart with older arguments that comes after the last request: it aborts the job of
      that request, and the index ends with the older arguments. */
  lemma OlderArgsCanWin(f: FileId, a: Args, b: Args, c: Args)
    ensures SettlesWith([
        Request(f, a), Start(0), Request(f, b), Finish(0), Request(f, c), Start(1),
        Restart(0), Finish(1), Restart(0), Start(2), Finish(2), Write], f, b)
  {
    var es := OlderRunSettles(f, a, b, c);
    assert es == [
        Request(f, a), Start(0), Request(f, b), Finish(0), Request(f, c), Start(1),
        Restart(0), Finish(1), Restart(0), Start(2), Finish(2), Write];
  }
}
