/**
 * The producer/consumer driver of data_extract.py, run one step at a time: the
 * producer's idempotent skip check, the consumer's routing of each
 * classification to the valid or the invalid partition, the requeue of an
 * erroring document at the tail, and the unfinished-task count that
 * `queue.join()` waits on.
 */
module Pipeline {
  import opened Wrappers
  import opened Records
  import opened Extraction

  /** Year directories from this year on are not processed. */
  const YearCutoff := 2005

  datatype Folder = DetailFolder | ValidFolder | InvalidFolder

  /** `data/<year>/detail/<name>`, `data/<year>/processed/valid/<name>` or `.../invalid/<name>`. */
  datatype FilePath = FilePath(year: int, folder: Folder, name: string)

  /** The triple the producer enqueues: the detail file and its two possible outputs. */
  datatype Job = Job(detail: FilePath, validOut: FilePath, invalidOut: FilePath)

  /** One `data/<year>` directory: its year and the `*.json` names in `detail/`, when that exists. */
  datatype YearDir = YearDir(year: int, detailFiles: Option<seq<string>>)

  function JobFor(year: int, name: string): Job {
    Job(FilePath(year, DetailFolder, name), FilePath(year, ValidFolder, name), FilePath(year, InvalidFolder, name))
  }

  /** An output already exists in either partition. */
  predicate Processed(j: Job, written: set<FilePath>) {
    j.validOut in written || j.invalidOut in written
  }

  /** The producer must enqueue `j`: a detail file of a year before the cutoff with no output yet. */
  ghost predicate Pending(years: seq<YearDir>, written: set<FilePath>, j: Job) {
    exists i :: 0 <= i < |years| && PendingIn(years[i], written, j)
  }

  ghost predicate PendingIn(y: YearDir, written: set<FilePath>, j: Job) {
    && y.year < YearCutoff
    && y.detailFiles.Some?
    && j.detail.name in y.detailFiles.value
    && j == JobFor(y.year, j.detail.name)
    && !Processed(j, written)
  }

  /** data_extract.py:218-224 for one year's listing. */
  function ProduceNames(year: int, names: seq<string>, written: set<FilePath>): (q: seq<Job>)
    ensures forall j :: j in q <==> j.detail.name in names && j == JobFor(year, j.detail.name) && !Processed(j, written)
    ensures |q| <= |names|
  {
    if names == [] then []
    else
      var rest := ProduceNames(year, names[1..], written);
      var j := JobFor(year, names[0]);
      assert forall n :: n in names <==> n == names[0] || n in names[1..];
      if Processed(j, written) then rest else [j] + rest
  }

  /** data_extract.py:205-217 for one year directory. */
  function ProduceYear(y: YearDir, written: set<FilePath>): (q: seq<Job>)
    ensures forall j :: j in q <==> PendingIn(y, written, j)
  {
    if y.year >= YearCutoff || y.detailFiles.None? then []
    else ProduceNames(y.year, y.detailFiles.value, written)
  }

  /**
   * `producer`: every pending detail file, and nothing else, is enqueued as
   * its (detail, valid, invalid) triple.
   */
  function Produce(years: seq<YearDir>, written: set<FilePath>): (q: seq<Job>)
    ensures forall j :: j in q <==> Pending(years, written, j)
  {
    if years == [] then []
    else
      var q := ProduceYear(years[0], written) + Produce(years[1..], written);
      assert forall j :: Pending(years, written, j) <==> PendingIn(years[0], written, j) || Pending(years[1..], written, j) by {
        forall j
          ensures Pending(years, written, j) <==> PendingIn(years[0], written, j) || Pending(years[1..], written, j)
        {
          if Pending(years[1..], written, j) {
            var i :| 0 <= i < |years[1..]| && PendingIn(years[1..][i], written, j);
            assert PendingIn(years[i + 1], written, j);
          }
          if Pending(years, written, j) && !PendingIn(years[0], written, j) {
            var i :| 0 <= i < |years| && PendingIn(years[i], written, j);
            assert PendingIn(years[1..][i - 1], written, j);
          }
        }
      }
      q
  }

  ghost predicate Distinct<T>(s: seq<T>) {
    forall i, k :: 0 <= i < k < |s| ==> s[i] != s[k]
  }

  lemma {:induction false} ProduceNamesDistinct(year: int, names: seq<string>, written: set<FilePath>)
    requires Distinct(names)
    ensures Distinct(ProduceNames(year, names, written))
  {
    if names != [] {
      assert Distinct(names[1..]);
      ProduceNamesDistinct(year, names[1..], written);
      var j := JobFor(year, names[0]);
      assert j !in ProduceNames(year, names[1..], written);
    }
  }

  /**
   * Within one run every pending file is enqueued exactly once, provided the
   * year directories carry distinct years and each listing distinct names.
   */
  lemma {:induction false} ProduceDistinct(years: seq<YearDir>, written: set<FilePath>)
    requires forall i, k :: 0 <= i < k < |years| ==> years[i].year != years[k].year
    requires forall i :: 0 <= i < |years| && years[i].detailFiles.Some? ==> Distinct(years[i].detailFiles.value)
    ensures Distinct(Produce(years, written))
  {
    if years != [] {
      var head := ProduceYear(years[0], written);
      if years[0].year < YearCutoff && years[0].detailFiles.Some? {
        ProduceNamesDistinct(years[0].year, years[0].detailFiles.value, written);
      }
      var tail := Produce(years[1..], written);
      ProduceDistinct(years[1..], written);
      forall i, k | 0 <= i < |head| && 0 <= k < |tail|
        ensures head[i] != tail[k]
      {
        assert PendingIn(years[0], written, head[i]);
        assert Pending(years[1..], written, tail[k]);
        var m :| 0 <= m < |years[1..]| && PendingIn(years[1..][m], written, tail[k]);
        assert years[m + 1].year != years[0].year;
      }
      var q := head + tail;
      forall i, k | 0 <= i < k < |q|
        ensures q[i] != q[k]
      {
        if k < |head| {
          assert q[i] == head[i] && q[k] == head[k];
        } else if i >= |head| {
          assert q[i] == tail[i - |head|] && q[k] == tail[k - |head|];
        } else {
          assert q[i] == head[i] && q[k] == tail[k - |head|];
        }
      }
    }
  }

  // ---------------------------------------------------------------------------
  // The consumer
  // ---------------------------------------------------------------------------

  /**
   * The queue's contents and `unfinished_tasks` counter, and the output files
   * written so far with their contents.
   */
  datatype QueueState = QueueState(queue: seq<Job>, unfinished: int, store: map<FilePath, map<string, Json>>)

  /** The state after the producer has run over the corpus: one `put` per job. */
  function Start(years: seq<YearDir>, store: map<FilePath, map<string, Json>>): (s: QueueState)
    ensures forall j :: j in s.queue <==> Pending(years, store.Keys, j)
    ensures s.unfinished == |s.queue| && s.store == store
  {
    var q := Produce(years, store.Keys);
    QueueState(q, |q|, store)
  }

  /**
   * One iteration of `consumer` (data_extract.py:229-245) with `c` the
   * classification of the dequeued job. With a payload and no error the
   * result is written to the valid partition when a downgrade is confirmed
   * and to the invalid one otherwise; with an error nothing is written and
   * the same triple goes to the tail; without a payload nothing happens.
   * `task_done` is called once in every case, `put_nowait` only on requeue.
   */
  function ConsumerStep(s: QueueState, c: Classification): (t: QueueState)
    requires s.queue != []
    ensures var requeued := c.hasResearchPayload && c.isError;
      t.unfinished == s.unfinished + (if requeued then 1 else 0) - 1
    ensures c.hasResearchPayload && c.isError ==> t.queue == s.queue[1..] + [s.queue[0]] && t.store == s.store
    ensures !c.hasResearchPayload ==> t.queue == s.queue[1..] && t.store == s.store
    ensures c.hasResearchPayload && !c.isError ==>
      var target := if c.downgrade then s.queue[0].validOut else s.queue[0].invalidOut;
      && t.queue == s.queue[1..]
      && t.store.Keys == s.store.Keys + {target}
      && t.store[target] == c.result
      && forall f :: f in s.store && f != target ==> t.store[f] == s.store[f]
  {
    var job := s.queue[0];
    var rest := s.queue[1..];
    if c.hasResearchPayload then
      if !c.isError then
        var target := if !c.downgrade then job.invalidOut else job.validOut;
        QueueState(rest, s.unfinished - 1, s.store[target := c.result])
      else
        QueueState(rest + [job], s.unfinished + 1 - 1, s.store)
    else
      QueueState(rest, s.unfinished - 1, s.store)
  }

  /**
   * Consumer steps while the queue is not empty, one classification per
   * dequeued job. Every step moves the queue length and the unfinished count
   * together, and no step ever removes a written output.
   */
  function Run(s: QueueState, outcomes: seq<Classification>): (t: QueueState)
    ensures t.unfinished - |t.queue| == s.unfinished - |s.queue|
    ensures s.store.Keys <= t.store.Keys
    decreases |outcomes|
  {
    if s.queue == [] || outcomes == [] then s
    else Run(ConsumerStep(s, outcomes[0]), outcomes[1..])
  }

  ghost predicate WellFormed(j: Job) {
    j == JobFor(j.detail.year, j.detail.name)
  }

  /** No document has an output in both partitions. */
  ghost predicate Exclusive(store: map<FilePath, map<string, Json>>) {
    forall f :: f in store && f.folder == ValidFolder ==> FilePath(f.year, InvalidFolder, f.name) !in store
  }

  /**
   * What holds between consumer steps: `unfinished_tasks` equals the queue
   * length, queued jobs are distinct, well-formed and have no output yet, and
   * no document sits in both partitions.
   */
  ghost predicate Consistent(s: QueueState) {
    && s.unfinished == |s.queue|
    && Distinct(s.queue)
    && (forall i :: 0 <= i < |s.queue| ==> WellFormed(s.queue[i]) && !Processed(s.queue[i], s.store.Keys))
    && Exclusive(s.store)
  }

  /** The producer's queue starts consistent over an output store without conflicts. */
  lemma StartConsistent(years: seq<YearDir>, store: map<FilePath, map<string, Json>>)
    requires forall i, k :: 0 <= i < k < |years| ==> years[i].year != years[k].year
    requires forall i :: 0 <= i < |years| && years[i].detailFiles.Some? ==> Distinct(years[i].detailFiles.value)
    requires Exclusive(store)
    ensures Consistent(Start(years, store))
  {
    ProduceDistinct(years, store.Keys);
    var s := Start(years, store);
    forall i | 0 <= i < |s.queue|
      ensures WellFormed(s.queue[i]) && !Processed(s.queue[i], s.store.Keys)
    {
      assert s.queue[i] in s.queue;
      var m :| 0 <= m < |years| && PendingIn(years[m], store.Keys, s.queue[i]);
    }
  }

  /**
   * A consumer step keeps the state consistent: `task_done` is never called
   * more often than `put` (the counter stays non-negative), a job is written
   * at most once and never to both partitions.
   */
  lemma StepConsistent(s: QueueState, c: Classification)
    requires Consistent(s) && s.queue != []
    ensures Consistent(ConsumerStep(s, c))
    ensures ConsumerStep(s, c).unfinished >= 0
  {
    var t := ConsumerStep(s, c);
    var job, rest := s.queue[0], s.queue[1..];
    assert forall i :: 0 <= i < |rest| ==> rest[i] == s.queue[i + 1];
    assert job !in rest;
    if c.hasResearchPayload && c.isError {
      var q := rest + [job];
      assert forall i :: 0 <= i < |rest| ==> q[i] == rest[i];
      assert q[|rest|] == job;
    } else if c.hasResearchPayload {
      var target := if c.downgrade then job.validOut else job.invalidOut;
      forall i | 0 <= i < |rest|
        ensures !Processed(rest[i], t.store.Keys)
      {
        assert rest[i] != job && WellFormed(rest[i]);
      }
      forall f | f in t.store && f.folder == ValidFolder
        ensures FilePath(f.year, InvalidFolder, f.name) !in t.store
      {
        if f == target || FilePath(f.year, InvalidFolder, f.name) == target {
          assert !Processed(job, s.store.Keys);
        }
      }
    }
  }

  /** Consistency holds after any number of steps. */
  lemma {:induction false} RunConsistent(s: QueueState, outcomes: seq<Classification>)
    requires Consistent(s)
    ensures Consistent(Run(s, outcomes))
    decreases |outcomes|
  {
    if s.queue != [] && outcomes != [] {
      StepConsistent(s, outcomes[0]);
      RunConsistent(ConsumerStep(s, outcomes[0]), outcomes[1..]);
    }
  }

  /**
   * Errors are retried without limit: while every classification is an
   * error, no step shrinks the queue or writes an output, so `queue.join()`
   * keeps waiting on a document whose model call always fails.
   */
  lemma {:induction false} ErrorsNeverDrain(s: QueueState, outcomes: seq<Classification>)
    requires forall i :: 0 <= i < |outcomes| ==> outcomes[i].hasResearchPayload && outcomes[i].isError
    ensures |Run(s, outcomes).queue| == |s.queue|
    ensures multiset(Run(s, outcomes).queue) == multiset(s.queue)
    ensures Run(s, outcomes).store == s.store
    decreases |outcomes|
  {
    if s.queue != [] && outcomes != [] {
      var t := ConsumerStep(s, outcomes[0]);
      assert s.queue == [s.queue[0]] + s.queue[1..];
      ErrorsNeverDrain(t, outcomes[1..]);
    }
  }

  /**
   * `queue.join()` returns exactly when the queue is drained. This is a named
   * corollary of `Consistent`; the work is in `StepConsistent`, which keeps
   * the unfinished count equal to the queue length across every step.
   */
  lemma JoinMeansDrained(s: QueueState)
    requires Consistent(s)
    ensures s.unfinished == 0 <==> s.queue == []
  {
  }

  /**
   * When every classification carried a payload, each job that was queued at
   * the start is, after the run, either still queued or has an output; and
   * outputs are never removed.
   */
  lemma {:induction false} RunCovers(s: QueueState, outcomes: seq<Classification>)
    requires forall i :: 0 <= i < |outcomes| ==> outcomes[i].hasResearchPayload
    ensures s.store.Keys <= Run(s, outcomes).store.Keys
    ensures forall j :: j in s.queue ==> j in Run(s, outcomes).queue || Processed(j, Run(s, outcomes).store.Keys)
    decreases |outcomes|
  {
    if s.queue != [] && outcomes != [] {
      var t := ConsumerStep(s, outcomes[0]);
      RunCovers(t, outcomes[1..]);
      forall j | j in s.queue
        ensures j in t.queue || Processed(j, t.store.Keys)
      {
        if j != s.queue[0] {
          var i :| 0 <= i < |s.queue| && s.queue[i] == j;
          assert s.queue[1..][i - 1] == j;
        }
      }
    }
  }

  /** Writing more outputs can only shrink what is pending. */
  lemma PendingMonotone(years: seq<YearDir>, small: set<FilePath>, big: set<FilePath>)
    requires small <= big
    ensures forall j :: Pending(years, big, j) ==> Pending(years, small, j) && !Processed(j, big)
  {
    forall j | Pending(years, big, j)
      ensures Pending(years, small, j) && !Processed(j, big)
    {
      var i :| 0 <= i < |years| && PendingIn(years[i], big, j);
      assert PendingIn(years[i], small, j);
    }
  }

  /**
   * Re-running is idempotent: after a run that drained the queue with every
   * document carrying a payload, the producer of a second run finds nothing
   * to enqueue, so nothing is written or overwritten.
   */
  lemma SecondRunFindsNothing(years: seq<YearDir>, store: map<FilePath, map<string, Json>>, outcomes: seq<Classification>)
    requires forall i :: 0 <= i < |outcomes| ==> outcomes[i].hasResearchPayload
    requires Run(Start(years, store), outcomes).queue == []
    ensures Produce(years, Run(Start(years, store), outcomes).store.Keys) == []
  {
    var s := Start(years, store);
    var t := Run(s, outcomes);
    RunCovers(s, outcomes);
    PendingMonotone(years, store.Keys, t.store.Keys);
    assert forall j :: j in s.queue ==> Processed(j, t.store.Keys);
  }
}
