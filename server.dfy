/** The benchmark server (pkg/server/fio.go): doWork's worker-count ceiling,
    its token pool and results merge as a sequential dispatcher, and the
    grouping, sorting and naming done by renderCharts. */
module Server {
  import opened Wrappers
  import opened Exec
  import opened Settings
  import opened Client
  import opened WorkItems

  const WorkersLimit: int := 32

  /** The number of workers: the configured count, capped at WorkersLimit and
      at the number of targets. */
  function NumWorkers(workers: int, targets: nat): (n: int)
    ensures n <= WorkersLimit && n <= targets
    ensures n == workers || n == WorkersLimit || n == targets
    ensures workers <= WorkersLimit && workers <= targets ==> n == workers
    ensures workers >= 1 && targets >= 1 ==> n >= 1
  {
    var n := if workers > WorkersLimit then WorkersLimit else workers;
    if n > targets then targets else n
  }

  // ---------------------------------------------------------------------------
  // The start of doWork: what the queue outcome leads to

  /** What doWork does once NewWorkQueue has returned. */
  datatype Start = NoWork | Dispatch(queue: Queue) | StartFailed(error: GoError) | StartCrashes

  /** fio.go:266-273 as written: the error is returned, an empty queue means no
      work, and a nil queue is dereferenced. */
  function StartAsWritten(q: QueueOutcome): (s: Start)
    ensures s.Dispatch? <==> q.Queued? && |q.queue| > 0
    ensures s.StartCrashes? <==> q.NilQueue? || q.QueueCrashes?
    ensures s.StartFailed? <==> q.QueueFailed?
  {
    match q
    case Queued(queue) => if |queue| == 0 then NoWork else Dispatch(queue)
    case NilQueue => StartCrashes
    case QueueFailed(e) => StartFailed(e)
    case QueueCrashes => StartCrashes
  }

  /** The evidently intended start: a nil queue is no work, as an empty one is. */
  function StartOf(q: QueueOutcome): (s: Start)
    ensures s.Dispatch? <==> q.Queued? && |q.queue| > 0
    ensures s.StartCrashes? <==> q.QueueCrashes?
    ensures s.NoWork? <==> q.NilQueue? || (q.Queued? && |q.queue| == 0)
    ensures s.StartFailed? ==> q == QueueFailed(s.error)
  {
    match q
    case Queued(queue) => if |queue| == 0 then NoWork else Dispatch(queue)
    case NilQueue => NoWork
    case QueueFailed(e) => StartFailed(e)
    case QueueCrashes => StartCrashes
  }

  /** Settings that ParseSettings accepts yet make doWork crash as written: a
      file is named but no numjobs are given, so the explicit queue is empty,
      NewWorkQueue returns (nil, nil) and doWork dereferences the nil queue. */
  lemma NilQueueCrashesAsWritten(exec: Executor, inContainer: bool)
    ensures var fs := FioSettings([], "", true, false, ["4k"], 60, [1], ["read"], ["/dev/sdb"]);
      var s := TestSettings(Some(fs), false, 1);
      ParseSettings(Ok(s)) == Parsed(s)
      && NewQueue(s, exec, inContainer) == NilQueue
      && StartAsWritten(NewQueue(s, exec, inContainer)) == StartCrashes
      && StartOf(NewQueue(s, exec, inContainer)) == NoWork
  {
    var fs := FioSettings([], "", true, false, ["4k"], 60, [1], ["read"], ["/dev/sdb"]);
    var s := TestSettings(Some(fs), false, 1);
    EmptyDimensionGivesNil(s, exec, inContainer);
  }

  /** As intended, settings without use_all_disks never fail or crash doWork:
      discovery is not consulted. */
  lemma NamedFilesNeverFail(settings: TestSettings, exec: Executor, inContainer: bool)
    requires settings.fioSettings.Some? && !settings.useAllDisks
    ensures StartOf(NewQueue(settings, exec, inContainer)).NoWork?
         || StartOf(NewQueue(settings, exec, inContainer)).Dispatch?
  {
  }

  // ---------------------------------------------------------------------------
  // The results merge

  /** The results of the units run in `order`, one block per target. */
  function Merged(run: Runner, queue: Queue, order: seq<string>, uuid: nat -> string): seq<FioResult>
    requires forall t :: t in order ==> t in queue
  {
    if order == [] then []
    else
      var n := |order| - 1;
      Merged(run, queue, order[..n], uuid) + Collect(run, queue[order[n]], uuid)
  }

  /** `order` lists each key of the queue exactly once. */
  predicate Enumerates(order: seq<string>, keys: set<string>)
  {
    (forall t :: t in order ==> t in keys)
    && (forall t :: t in keys ==> t in order)
    && (forall i, j :: 0 <= i < j < |order| ==> order[i] != order[j])
  }

  lemma AppendAssoc(a: seq<FioResult>, b: seq<FioResult>, c: seq<FioResult>)
    ensures (a + b) + c == a + (b + c)
  {
  }

  lemma EnumeratesStep(order: seq<string>, done: set<string>, t: string)
    requires Enumerates(order, done) && t !in done
    ensures Enumerates(order + [t], done + {t})
  {
  }

  lemma MergedStep(run: Runner, queue: Queue, order: seq<string>, t: string, uuid: nat -> string)
    requires (forall u :: u in order ==> u in queue) && t in queue
    ensures forall u :: u in order + [t] ==> u in queue
    ensures Merged(run, queue, order + [t], uuid) == Merged(run, queue, order, uuid) + Collect(run, queue[t], uuid)
  {
    assert (order + [t])[..|order|] == order;
  }

  /** A result is merged iff it is a result of one of the units run. */
  lemma {:induction false} MergedMembers(run: Runner, queue: Queue, order: seq<string>, uuid: nat -> string,
                                         x: FioResult)
    requires forall t :: t in order ==> t in queue
    ensures x in Merged(run, queue, order, uuid) <==>
      exists t :: t in order && x in Collect(run, queue[t], uuid)
  {
    if order != [] {
      var n := |order| - 1;
      var prefix, last := order[..n], order[n];
      assert order == prefix + [last];
      var before, unit := Merged(run, queue, prefix, uuid), Collect(run, queue[last], uuid);
      assert Merged(run, queue, order, uuid) == before + unit;
      MergedMembers(run, queue, prefix, uuid, x);
      if x in before {
        var t :| t in prefix && x in Collect(run, queue[t], uuid);
        assert t in order;
      } else if x in unit {
        assert last in order;
      }
      if exists t :: t in order && x in Collect(run, queue[t], uuid) {
        var t :| t in order && x in Collect(run, queue[t], uuid);
        if t != last {
          assert t in prefix;
        }
      }
    }
  }

  /** In a dry run nothing is merged, whatever the order. */
  lemma {:induction false} MergedDryRun(exec: Executor, decode: Decoder, queue: Queue, order: seq<string>,
                                        uuid: nat -> string)
    requires forall t :: t in order ==> t in queue
    ensures Merged(FioRunner(exec, decode, true), queue, order, uuid) == []
  {
    if order != [] {
      var n := |order| - 1;
      MergedDryRun(exec, decode, queue, order[..n], uuid);
      DryRunHasNoResults(exec, decode, queue[order[n]], uuid);
    }
  }

  /** What doWork returns: nil, the queue error, or a crash. */
  datatype WorkOutcome = WorkDone | WorkFailed(error: GoError) | WorkCrashed

  // ---------------------------------------------------------------------------
  // The server

  class FioServer {
    const exec: Executor
    const decode: Decoder
    const chartFile: string
    const dryrun: bool
    var results: seq<FioResult>
    var numWorkers: int
    /** Tokens in the worker pool and tokens held by running units. */
    var freeTokens: int
    var busyTokens: int

    /** Every token is either in the pool or held by a running unit. */
    predicate Valid()
      reads this
    {
      0 <= freeTokens && 0 <= busyTokens && freeTokens + busyTokens == numWorkers
    }

    constructor(exec: Executor, decode: Decoder, chartFile: string, dryrun: bool)
      ensures this.exec == exec && this.decode == decode && this.chartFile == chartFile && this.dryrun == dryrun
      ensures results == [] && numWorkers == 0 && freeTokens == 0 && busyTokens == 0
      ensures Valid()
    {
      this.exec := exec;
      this.decode := decode;
      this.chartFile := chartFile;
      this.dryrun := dryrun;
      results := [];
      numWorkers := 0;
      freeTokens := 0;
      busyTokens := 0;
    }

    /** A worker taken from the pool (fio.go:291). */
    method TakeToken()
      requires Valid() && freeTokens > 0
      modifies this
      ensures Valid()
      ensures freeTokens == old(freeTokens) - 1 && busyTokens == old(busyTokens) + 1
      ensures numWorkers == old(numWorkers) && results == old(results)
    {
      freeTokens := freeTokens - 1;
      busyTokens := busyTokens + 1;
    }

    /** A worker given back to the pool (fio.go:300). */
    method ReturnToken()
      requires Valid() && busyTokens > 0
      modifies this
      ensures Valid()
      ensures freeTokens == old(freeTokens) + 1 && busyTokens == old(busyTokens) - 1
      ensures numWorkers == old(numWorkers) && results == old(results)
    {
      freeTokens := freeTokens + 1;
      busyTokens := busyTokens - 1;
    }

    /** One dispatched unit: take a worker, run the target's items, append
        their results under the lock, give the worker back. Do's error is
        discarded. */
    method RunUnit(items: seq<WorkItem>, uuid: nat -> string)
      requires Valid() && freeTokens > 0
      modifies this
      ensures Valid()
      ensures freeTokens == old(freeTokens) && busyTokens == old(busyTokens) && numWorkers == old(numWorkers)
      ensures results == old(results) + Collect(FioRunner(exec, decode, dryrun), items, uuid)
    {
      TakeToken();
      var unitResults, _ := Do(items, exec, decode, dryrun, uuid);
      results := results + unitResults;
      ReturnToken();
    }

    /** One target sent to the pool: its unit runs and its block of results
        follows those of the targets dispatched before it. */
    method DispatchOne(queue: Queue, target: string, uuid: nat -> string, ghost base: seq<FioResult>,
                       ghost order: seq<string>)
      requires Valid() && freeTokens > 0
      requires target in queue && forall t :: t in order ==> t in queue
      requires results == base + Merged(FioRunner(exec, decode, dryrun), queue, order, uuid)
      modifies this
      ensures Valid()
      ensures freeTokens == old(freeTokens) && busyTokens == old(busyTokens) && numWorkers == old(numWorkers)
      ensures forall t :: t in order + [target] ==> t in queue
      ensures results == base + Merged(FioRunner(exec, decode, dryrun), queue, order + [target], uuid)
    {
      ghost var merged := Merged(FioRunner(exec, decode, dryrun), queue, order, uuid);
      RunUnit(queue[target], uuid);
      ghost var block := Collect(FioRunner(exec, decode, dryrun), queue[target], uuid);
      assert results == (base + merged) + block;
      MergedStep(FioRunner(exec, decode, dryrun), queue, order, target, uuid);
      AppendAssoc(base, merged, block);
    }

    /** The dispatch of fio.go:274-308: a pool of NumWorkers tokens, and every
        target's items sent once as one unit. The units run one after another
        in the queue's iteration order, recorded in `order`. */
    method RunQueue(queue: Queue, workers: int, uuid: nat -> string) returns (ghost order: seq<string>)
      requires workers >= 1 && |queue| > 0
      requires Valid() && busyTokens == 0
      modifies this
      ensures Valid() && busyTokens == 0
      ensures numWorkers == NumWorkers(workers, |queue|) && freeTokens == numWorkers
      ensures Enumerates(order, queue.Keys)
      ensures forall t :: t in order ==> t in queue
      ensures results == old(results) + Merged(FioRunner(exec, decode, dryrun), queue, order, uuid)
    {
      order := [];
      numWorkers := NumWorkers(workers, |queue|);
      freeTokens := numWorkers;
      var todo := queue.Keys;
      while todo != {}
        invariant Valid() && busyTokens == 0 && freeTokens == numWorkers >= 1
        invariant numWorkers == NumWorkers(workers, |queue|)
        invariant todo <= queue.Keys && Enumerates(order, queue.Keys - todo)
        invariant results == old(results) + Merged(FioRunner(exec, decode, dryrun), queue, order, uuid)
        decreases todo
      {
        var target :| target in todo;
        DispatchOne(queue, target, uuid, old(results), order);
        EnumeratesStep(order, queue.Keys - todo, target);
        assert queue.Keys - (todo - {target}) == (queue.Keys - todo) + {target};
        order := order + [target];
        todo := todo - {target};
      }
      assert queue.Keys - todo == queue.Keys;
    }

    /** doWork on an idle server, with a nil queue read as no work; `uuid`
        names each unit's runs. */
    method DoWork(settings: TestSettings, inContainer: bool, uuid: nat -> string)
      returns (r: WorkOutcome, ghost order: seq<string>)
      requires settings.fioSettings.Some? && settings.workers >= 1
      requires Valid() && busyTokens == 0
      modifies this
      ensures Valid() && busyTokens == 0
      ensures var start := StartOf(NewQueue(settings, exec, inContainer));
        (start.NoWork? ==> r == WorkDone && results == old(results) && numWorkers == old(numWorkers))
        && (start.StartFailed? ==> r == WorkFailed(start.error) && results == old(results))
        && (start.StartCrashes? ==> r == WorkCrashed && results == old(results))
        && (start.Dispatch? ==>
              r == WorkDone
              && numWorkers == NumWorkers(settings.workers, |start.queue|) && freeTokens == numWorkers
              && Enumerates(order, start.queue.Keys)
              && (forall t :: t in order ==> t in start.queue)
              && results == old(results) + Merged(FioRunner(exec, decode, dryrun), start.queue, order, uuid))
    {
      order := [];
      var q := NewWorkQueue(settings, exec, inContainer);
      var start := StartOf(q);
      match start {
        case NoWork =>
          r := WorkDone;
        case StartFailed(e) =>
          r := WorkFailed(e);
        case StartCrashes =>
          r := WorkCrashed;
        case Dispatch(queue) =>
          order := RunQueue(queue, settings.workers, uuid);
          r := WorkDone;
      }
    }

    /** renderCharts' grouping of the merged results, the in-place sort of the
        settings' numjobs list `numJobs`, and the chart file; failing to create
        the file (`create`) panics, a rendering error is only logged. */
    method RenderCharts(numJobs: array<int>, uuid: string, create: string -> Option<GoError>)
      returns (buckets: map<BucketKey, seq<FioJob>>, fileName: string, crashes: bool)
      modifies numJobs
      ensures buckets == Buckets(AllJobs(results))
      ensures SortedInts(numJobs[..]) && multiset(numJobs[..]) == multiset(old(numJobs[..]))
      ensures fileName == ChartFileName(chartFile, uuid)
      ensures crashes <==> create(fileName).Some?
    {
      buckets := BucketJobs(results);
      SortNumJobs(numJobs);
      fileName := ChartFileName(chartFile, uuid);
      crashes := create(fileName).Some?;
    }
  }
}
