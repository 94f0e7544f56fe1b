/** What the index holds after a run of the reindexing protocol (src/Project.cpp): the results
    that onJobFinished() leaves are those that write() merges. */
module IndexedRuns {
  import opened JobProtocol
  import opened Locations
  import opened ProjectIndex
  import opened SymbolIndex

  /** A result in mPendingData: the job it is of, and the arguments it was computed with. */
  datatype Result = Result(job: JobId, args: Args)

  type Results = map<FileId, Result>

  /** What a step makes of the results that wait: as of mPendingData, but with the jobs. */
  function Waiting(d: Results, s: State, e: JobProtocol.Event): Results
    requires Enabled(s, e)
  {
    match e
    case Request(f, _) => if f in s.current && s.current[f] in s.jobs then d else d - {f}
    case Restart(i) =>
      var f := s.restarts[i].0;
      if f in s.current && s.current[f] in s.jobs then d else d - {f}
    case Finish(j) => if s.jobs[j].aborted then d else d[s.jobs[j].file := Result(j, s.jobs[j].args)]
    case Write => map[]
    case _ => d
  }

  /** What each write() of a run finds. */
  function Writes(s: State, d: Results, es: seq<JobProtocol.Event>): seq<Results>
    requires Legal(s, es)
    decreases |es|
  {
    if es == [] then []
    else (if es[0].Write? then [d] else []) + Writes(Next(s, es[0]), Waiting(d, s, es[0]), es[1..])
  }

  /** The results that jobs leave in a run, in order. */
  function Left(s: State, es: seq<JobProtocol.Event>): seq<(FileId, JobId)>
    requires Legal(s, es)
    decreases |es|
  {
    if es == [] then []
    else LeftBy(s, es[0]) + Left(Next(s, es[0]), es[1..])
  }

  function LeftBy(s: State, e: JobProtocol.Event): seq<(FileId, JobId)>
    requires Enabled(s, e)
  {
    if e.Finish? && !s.jobs[e.job].aborted then [(s.jobs[e.job].file, e.job)] else []
  }

  /** The k-th write is the last one with a result of f. */
  ghost predicate LastOf(writes: seq<Results>, k: nat, f: FileId) {
    k < |writes| && f in writes[k] && forall j :: k < j < |writes| ==> f !in writes[j]
  }

  /** The last result of f that was left is that of job j. */
  ghost predicate LastLeft(left: seq<(FileId, JobId)>, f: FileId, j: JobId) {
    exists i :: 0 <= i < |left| && left[i] == (f, j) && forall m :: i < m < |left| ==> left[m].0 != f
  }

  lemma LastLeftStays(left: seq<(FileId, JobId)>, more: seq<(FileId, JobId)>, f: FileId, j: JobId)
    requires LastLeft(left, f, j) && forall r :: r in more ==> r.0 != f
    ensures LastLeft(left + more, f, j)
  {
    var i :| 0 <= i < |left| && left[i] == (f, j) && forall m :: i < m < |left| ==> left[m].0 != f;
    assert (left + more)[i] == (f, j);
    forall m | i < m < |left + more| ensures (left + more)[m].0 != f {
      assert m >= |left| ==> (left + more)[m] in more;
    }
  }

  lemma JustLeft(left: seq<(FileId, JobId)>, f: FileId, j: JobId)
    ensures LastLeft(left + [(f, j)], f, j)
  {
    assert (left + [(f, j)])[|left|] == (f, j);
  }

  // --- What every step keeps ---

  ghost predicate Matches(s: State, d: Results) {
    d.Keys == s.data.Keys && forall f :: f in d ==> d[f].args == s.data[f]
  }

  /** The result of f in the index is that of the last write with one, and the last one left. */
  ghost predicate IsWritten(written: map<FileId, Args>, writes: seq<Results>, left: seq<(FileId, JobId)>, f: FileId)
    requires f in written
  {
    exists k: nat :: LastOf(writes, k, f) && writes[k][f].args == written[f] && LastLeft(left, f, writes[k][f].job)
  }

  ghost predicate AllLast(d: Results, left: seq<(FileId, JobId)>) {
    forall f :: f in d ==> LastLeft(left, f, d[f].job)
  }

  ghost predicate AllWritten(written: map<FileId, Args>, writes: seq<Results>, left: seq<(FileId, JobId)>) {
    forall f :: f in written ==> IsWritten(written, writes, left, f)
  }

  /** The results that wait are the last ones left, and so are those in the index; no file with a
      live job has one there. */
  ghost predicate Tracks(s: State, h: History, d: Results, writes: seq<Results>, left: seq<(FileId, JobId)>) {
    && Matches(s, d) && s.current.Keys !! h.written.Keys
    && AllLast(d, left) && AllWritten(h.written, writes, left)
  }

  lemma IsWrittenStays(written: map<FileId, Args>, written': map<FileId, Args>, writes: seq<Results>,
                       left: seq<(FileId, JobId)>, more: seq<(FileId, JobId)>, f: FileId)
    requires f in written && f in written' && written'[f] == written[f] && IsWritten(written, writes, left, f)
    requires forall r :: r in more ==> r.0 != f
    ensures IsWritten(written', writes, left + more, f)
  {
    var k: nat :| LastOf(writes, k, f) && writes[k][f].args == written[f] && LastLeft(left, f, writes[k][f].job);
    LastLeftStays(left, more, f, writes[k][f].job);
  }

  lemma MatchesNext(s: State, h: History, d: Results, e: JobProtocol.Event)
    requires Inv(s, h) && Enabled(s, e) && Matches(s, d)
    ensures Matches(Next(s, e), Waiting(d, s, e))
  {
  }

  lemma NotWrittenNext(s: State, h: History, e: JobProtocol.Event)
    requires Inv(s, h) && Enabled(s, e) && s.current.Keys !! h.written.Keys
    ensures Next(s, e).current.Keys !! Record(h, s, e).written.Keys
  {
  }

  lemma WriteTracks(s: State, h: History, d: Results, writes: seq<Results>, left: seq<(FileId, JobId)>)
    requires Tracks(s, h, d, writes, left)
    ensures AllWritten(h.written + s.data, writes + [d], left)
  {
    forall f | f in h.written + s.data ensures IsWritten(h.written + s.data, writes + [d], left, f) {
      if f in s.data {
        assert LastOf(writes + [d], |writes|, f);
      } else {
        var k: nat :| LastOf(writes, k, f) && writes[k][f].args == h.written[f] && LastLeft(left, f, writes[k][f].job);
        assert LastOf(writes + [d], k, f);
      }
    }
  }

  lemma FinishTracks(s: State, h: History, d: Results, writes: seq<Results>, left: seq<(FileId, JobId)>, j: JobId)
    requires Inv(s, h) && Enabled(s, Finish(j)) && !s.jobs[j].aborted && Tracks(s, h, d, writes, left)
    ensures AllLast(Waiting(d, s, Finish(j)), left + [(s.jobs[j].file, j)])
    ensures AllWritten(h.written, writes, left + [(s.jobs[j].file, j)])
  {
    var g := s.jobs[j].file;
    assert g in s.current && g !in h.written;
    JustLeft(left, g, j);
    forall f | f in d && f != g ensures LastLeft(left + [(g, j)], f, d[f].job) {
      LastLeftStays(left, [(g, j)], f, d[f].job);
    }
    forall f | f in h.written ensures IsWritten(h.written, writes, left + [(g, j)], f) {
      IsWrittenStays(h.written, h.written, writes, left, [(g, j)], f);
    }
  }

  lemma OtherTracks(s: State, h: History, d: Results, writes: seq<Results>, left: seq<(FileId, JobId)>,
                    e: JobProtocol.Event)
    requires Enabled(s, e) && !e.Write? && LeftBy(s, e) == [] && Tracks(s, h, d, writes, left)
    ensures AllLast(Waiting(d, s, e), left) && AllWritten(Record(h, s, e).written, writes, left)
  {
    var w := Record(h, s, e).written;
    forall f | f in w ensures IsWritten(w, writes, left, f) {
      IsWrittenStays(h.written, w, writes, left, [], f);
      assert left + [] == left;
    }
  }

  lemma NextTracks(s: State, h: History, d: Results, writes: seq<Results>, left: seq<(FileId, JobId)>,
                   e: JobProtocol.Event)
    requires Inv(s, h) && Enabled(s, e) && Tracks(s, h, d, writes, left)
    ensures Tracks(Next(s, e), Record(h, s, e), Waiting(d, s, e),
                   writes + (if e.Write? then [d] else []), left + LeftBy(s, e))
  {
    MatchesNext(s, h, d, e);
    NotWrittenNext(s, h, e);
    assert writes + [] == writes && left + [] == left;
    if e.Write? {
      WriteTracks(s, h, d, writes, left);
    } else if LeftBy(s, e) == [] {
      OtherTracks(s, h, d, writes, left, e);
    } else {
      FinishTracks(s, h, d, writes, left, e.job);
    }
  }

  lemma SumOfThree<T>(a: seq<T>, b: seq<T>, c: seq<T>)
    ensures (a + b) + c == a + (b + c)
  {
  }

  lemma {:induction false} RunTracks(s: State, h: History, d: Results, es: seq<JobProtocol.Event>,
                                     writes: seq<Results>, left: seq<(FileId, JobId)>)
    requires Inv(s, h) && Legal(s, es) && Tracks(s, h, d, writes, left)
    ensures AllWritten(Run(s, h, es).1.written, writes + Writes(s, d, es), left + Left(s, es))
    decreases |es|
  {
    if es == [] {
      assert writes + [] == writes && left + [] == left;
    } else {
      var e := es[0];
      var write := if e.Write? then [d] else [];
      NextKeeps(s, h, e);
      NextTracks(s, h, d, writes, left, e);
      RunTracks(Next(s, e), Record(h, s, e), Waiting(d, s, e), es[1..], writes + write, left + LeftBy(s, e));
      SumOfThree(writes, write, Writes(Next(s, e), Waiting(d, s, e), es[1..]));
      SumOfThree(left, LeftBy(s, e), Left(Next(s, e), es[1..]));
      assert Writes(s, d, es) == write + Writes(Next(s, e), Waiting(d, s, e), es[1..]);
      assert Left(s, es) == LeftBy(s, e) + Left(Next(s, e), es[1..]);
    }
  }

  // --- What the index holds ---

  /** The compiler answers with a unit for each job: the same file and arguments may give another
      one when a file has been edited since. */
  type Compiler = (FileId, JobId) -> IndexData

  function Batches(writes: seq<Results>, dirty: seq<set<FileId>>, result: Compiler): (bs: seq<Batch>)
    requires |dirty| == |writes|
    ensures |bs| == |writes|
  {
    seq(|writes|, k requires 0 <= k < |writes| =>
      Batch(dirty[k], map f | f in writes[k] :: result(f, writes[k][f].job)))
  }

  /** Every fact of this unit that no write after the k-th has purged was declared. */
  ghost predicate UnitIsThere(data: IndexData, rounds: seq<Round>, k: nat) {
    forall x :: x in UnitFacts(data) && UntouchedSince(rounds, k, |rounds|, x) ==> Declared(rounds, |rounds|, x)
  }

  lemma LastUnitIsThere(writes: seq<Results>, dirty: seq<set<FileId>>, result: Compiler, k: nat, f: FileId)
    requires |dirty| == |writes| && LastOf(writes, k, f)
    ensures UnitIsThere(result(f, writes[k][f].job), RoundsOf(Batches(writes, dirty, result), |writes|), k)
  {
    var bs := Batches(writes, dirty, result);
    var rounds := RoundsOf(bs, |writes|);
    var data := result(f, writes[k][f].job);
    forall x | x in UnitFacts(data) ensures x in rounds[k].added {
      assert f in bs[k].data && bs[k].data[f] == data;
      assert SomeUnitSays(bs[k].data, x);
    }
  }

  /** The unit of the last result of f that was left in the run, of the arguments in the index. */
  ghost predicate ResultIsThere(h: History, left: seq<(FileId, JobId)>, writes: seq<Results>, rounds: seq<Round>,
                                result: Compiler, f: FileId)
  {
    && f in h.written
    && (exists k: nat :: LastOf(writes, k, f) && writes[k][f].args == h.written[f]
          && LastLeft(left, f, writes[k][f].job) && UnitIsThere(result(f, writes[k][f].job), rounds, k))
  }

  lemma ResultsAreThere(es: seq<JobProtocol.Event>, dirty: seq<set<FileId>>, result: Compiler, f: FileId)
    requires Legal(START, es) && |dirty| == |Writes(START, map[], es)| && Settled(Run(START, NOTHING_YET, es).0)
    ensures var h, writes := Run(START, NOTHING_YET, es).1, Writes(START, map[], es);
      f in h.status && h.status[f] != GaveUp ==>
        ResultIsThere(h, Left(START, es), writes, RoundsOf(Batches(writes, dirty, result), |writes|), result, f)
  {
    var h, writes, left := Run(START, NOTHING_YET, es).1, Writes(START, map[], es), Left(START, es);
    SettledIsIndexed(es, f);
    RunTracks(START, NOTHING_YET, map[], es, [], []);
    assert [] + writes == writes && [] + left == left;
    if f in h.status && h.status[f] != GaveUp {
      assert IsWritten(h.written, writes, left, f);
      var k: nat :| LastOf(writes, k, f) && writes[k][f].args == h.written[f] && LastLeft(left, f, writes[k][f].job);
      LastUnitIsThere(writes, dirty, result, k, f);
    }
  }

  /** Any run of the protocol, with the files each write() purges first: the index is that of
      what was declared, and once the run has come to rest it holds, of each file that was
      requested and whose last job did not give up, the unit of the last job that left a result. */
  method IndexOfRun(es: seq<JobProtocol.Event>, dirty: seq<set<FileId>>, result: Compiler) returns (t: Tables)
    requires Legal(START, es) && |dirty| == |Writes(START, map[], es)|
    requires forall f, j :: IndexedAs(result(f, j), f)
    ensures var writes := Writes(START, map[], es);
      IsIndexOf(t, RoundsOf(Batches(writes, dirty, result), |writes|)) && Linked(t.symbols, t.usr)
    ensures var (s, h) := Run(START, NOTHING_YET, es);
      var writes := Writes(START, map[], es);
      Settled(s) ==> forall f :: f in h.status && h.status[f] != GaveUp ==>
        ResultIsThere(h, Left(START, es), writes, RoundsOf(Batches(writes, dirty, result), |writes|), result, f)
  {
    var bs := Batches(Writes(START, map[], es), dirty, result);
    assert forall b :: b in bs ==> AllIndexed(b.data);
    t := WriteAll(bs);
    if Settled(Run(START, NOTHING_YET, es).0) {
      forall f: FileId {
        ResultsAreThere(es, dirty, result, f);
      }
    }
  }
}
