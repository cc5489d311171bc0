/** The fio client (pkg/daemon/client/fio.go): the fio command line for one
    test, and the grouping, sorting and file naming RenderCharts does before
    drawing. */
module Client {
  import opened Wrappers
  import opened Strings
  import opened Exec

  const FioTool: string := "fio"
  const DefaultIOEngine: string := "libaio"

  /** The "job options" fio echoes back, all as strings. */
  datatype JobOptions = JobOptions(
    name: string := "",
    fileName: string := "",
    numJobs: string := "",
    runtime: string := "",
    ioEngine: string := "",
    direct: string := "",
    verify: string := "",
    blockSize: string := "",
    ioDepth: string := "",
    rw: string := "")

  /** One job of fio's report; the floating-point read/write metrics are not modelled. */
  datatype FioJob = FioJob(jobName: string, options: JobOptions)

  datatype FioResult = FioResult(jobs: seq<FioJob>)

  /** The JSON decoder for fio's output: a result, nil (the text "null"), or an error. */
  type Decoder = string -> Result<Option<FioResult>, GoError>

  // ---------------------------------------------------------------------------
  // FioTest

  /** The options naming the job, its target and its workload; `uuid` is the
      fresh job-name suffix. */
  function JobArgs(uuid: string, filename: string, numJobs: int, bs: string, rw: string, ioengine: string)
    : (args: seq<string>)
    ensures |args| == 13
    ensures args[0] == "--name" && args[1] == rw + "-" + uuid
    ensures args[2] == "--filename" && args[3] == filename
    ensures args[4] == "--numjobs" && args[5] == IntToString(numJobs)
    ensures args[6] == "--time_based"
    ensures args[7] == "--ioengine" && args[8] == (if ioengine == "" then DefaultIOEngine else ioengine)
    ensures args[9] == "--bs" && args[10] == bs
    ensures args[11] == "--rw" && args[12] == rw
  {
    [ "--name", rw + "-" + uuid,
      "--filename", filename,
      "--numjobs", IntToString(numJobs),
      "--time_based",
      "--ioengine", if ioengine == "" then DefaultIOEngine else ioengine,
      "--bs", bs,
      "--rw", rw]
  }

  /** The options controlling how the job runs and reports. */
  function RunArgs(iodepth: int, runtime: nat, direct: bool): (args: seq<string>)
    ensures |args| == 9
    ensures args[0] == "--direct" && args[1] == (if direct then "1" else "0")
    ensures args[2] == "--group_reporting"
    ensures args[3] == "--iodepth" && args[4] == IntToString(iodepth)
    ensures args[5] == "--runtime" && args[6] == NatToString(runtime) + "s"
    ensures args[7] == "--output-format" && args[8] == "json"
  {
    [ "--direct", if direct then "1" else "0",
      "--group_reporting",
      "--iodepth", IntToString(iodepth),
      "--runtime", NatToString(runtime) + "s",
      "--output-format", "json"]
  }

  /** The full argument vector: verification is switched off with
      "--verify 0" unless the settings ask for it. */
  function FioArgs(uuid: string, filename: string, numJobs: int, bs: string, iodepth: int, rw: string,
                   runtime: nat, ioengine: string, verify: bool, direct: bool): (args: seq<string>)
    ensures |args| == if verify then 22 else 24
    ensures args[..13] == JobArgs(uuid, filename, numJobs, bs, rw, ioengine)
    ensures args[13..22] == RunArgs(iodepth, runtime, direct)
    ensures !verify ==> args[22] == "--verify" && args[23] == "0"
  {
    var base := JobArgs(uuid, filename, numJobs, bs, rw, ioengine) + RunArgs(iodepth, runtime, direct);
    if verify then base else base + ["--verify", "0"]
  }

  /** FioTest: a dry run yields no result and no error; otherwise fio's error,
      or the decoded report (nil when fio printed "null"). */
  function FioTest(exec: Executor, decode: Decoder, filename: string, numJobs: int, bs: string, iodepth: int,
                   rw: string, runtime: nat, ioengine: string, verify: bool, direct: bool, dryrun: bool,
                   uuid: string): (r: Result<Option<FioResult>, GoError>)
    ensures dryrun ==> r == Ok(None)
    ensures !dryrun ==>
      var args := FioArgs(uuid, filename, numJobs, bs, iodepth, rw, runtime, ioengine, verify, direct);
      (exec(FioTool, args).err.Some? ==> r == Err(exec(FioTool, args).err.value))
      && (exec(FioTool, args).err.None? ==> r == decode(TrimSpace(exec(FioTool, args).stdout)))
  {
    var args := FioArgs(uuid, filename, numJobs, bs, iodepth, rw, runtime, ioengine, verify, direct);
    if dryrun then Ok(None)
    else
      match ExecuteCommandWithOutput(exec, FioTool, args)
      case Err(e) => Err(e)
      case Ok(output) => decode(output)
  }

  /** A dry run does not depend on the executor or the decoder. */
  lemma DryRunIgnoresExecutor(exec1: Executor, exec2: Executor, decode1: Decoder, decode2: Decoder,
                              filename: string, numJobs: int, bs: string, iodepth: int, rw: string,
                              runtime: nat, ioengine: string, verify: bool, direct: bool, uuid: string)
    ensures FioTest(exec1, decode1, filename, numJobs, bs, iodepth, rw, runtime, ioengine, verify, direct, true, uuid)
         == FioTest(exec2, decode2, filename, numJobs, bs, iodepth, rw, runtime, ioengine, verify, direct, true, uuid)
  {
  }

  // ---------------------------------------------------------------------------
  // RenderCharts: grouping the jobs

  /** The four options that select a job's chart bucket: rw, iodepth, bs, numjobs. */
  datatype BucketKey = BucketKey(rw: string, ioDepth: string, blockSize: string, numJobs: string)

  function KeyOf(job: FioJob): BucketKey
  {
    BucketKey(job.options.rw, job.options.ioDepth, job.options.blockSize, job.options.numJobs)
  }

  /** The jobs of all results, result by result. */
  function AllJobs(results: seq<FioResult>): seq<FioJob>
  {
    if results == [] then [] else AllJobs(results[..|results| - 1]) + results[|results| - 1].jobs
  }

  /** The grouping loop: each job appended to the list of its key. The nested
      rw -> iodepth -> bs -> numjobs maps are flattened to one map keyed by the
      four values. */
  function Buckets(jobs: seq<FioJob>): map<BucketKey, seq<FioJob>>
  {
    if jobs == [] then map[]
    else
      var m := Buckets(jobs[..|jobs| - 1]);
      var job := jobs[|jobs| - 1];
      var key := KeyOf(job);
      m[key := (if key in m then m[key] else []) + [job]]
  }

  /** The jobs with a given key, in order. */
  function JobsWithKey(jobs: seq<FioJob>, key: BucketKey): (r: seq<FioJob>)
    ensures forall j :: 0 <= j < |r| ==> KeyOf(r[j]) == key
    ensures |r| <= |jobs|
  {
    if jobs == [] then []
    else JobsWithKey(jobs[..|jobs| - 1], key) + (if KeyOf(jobs[|jobs| - 1]) == key then [jobs[|jobs| - 1]] else [])
  }

  /** Each bucket is exactly the jobs with its key, in arrival order, and a
      bucket exists iff some job has its key: every job is in exactly one
      bucket. */
  lemma {:induction false} BucketsAreFilters(jobs: seq<FioJob>, key: BucketKey)
    ensures key in Buckets(jobs) <==> exists i :: 0 <= i < |jobs| && KeyOf(jobs[i]) == key
    ensures key in Buckets(jobs) ==> Buckets(jobs)[key] == JobsWithKey(jobs, key) && |Buckets(jobs)[key]| > 0
  {
    if jobs != [] {
      var n := |jobs| - 1;
      BucketsAreFilters(jobs[..n], key);
      assert forall i :: 0 <= i < n ==> jobs[..n][i] == jobs[i];
      if key !in Buckets(jobs[..n]) {
        JobsWithKeyNone(jobs[..n], key);
      }
    }
  }

  lemma {:induction false} JobsWithKeyNone(jobs: seq<FioJob>, key: BucketKey)
    requires forall i :: 0 <= i < |jobs| ==> KeyOf(jobs[i]) != key
    ensures JobsWithKey(jobs, key) == []
  {
    if jobs != [] {
      var n := |jobs| - 1;
      assert forall i :: 0 <= i < n ==> jobs[..n][i] == jobs[i];
      JobsWithKeyNone(jobs[..n], key);
    }
  }

  /** The inner grouping loop: the jobs of one result appended to their buckets. */
  method AddJobs(jobMap: map<BucketKey, seq<FioJob>>, ghost seen: seq<FioJob>, jobs: seq<FioJob>)
    returns (out: map<BucketKey, seq<FioJob>>)
    requires jobMap == Buckets(seen)
    ensures out == Buckets(seen + jobs)
  {
    out := jobMap;
    assert seen + jobs[..0] == seen;
    for j := 0 to |jobs|
      invariant out == Buckets(seen + jobs[..j])
    {
      assert (seen + jobs[..j + 1])[..|seen + jobs[..j]|] == seen + jobs[..j];
      var job := jobs[j];
      var key := KeyOf(job);
      var bucket := if key in out then out[key] else [];
      out := out[key := bucket + [job]];
    }
    assert jobs[..|jobs|] == jobs;
  }

  /** The grouping loops of RenderCharts (client/fio.go:392-411) and of the
      server's renderCharts (server/fio.go:140-159). */
  method BucketJobs(results: seq<FioResult>) returns (jobMap: map<BucketKey, seq<FioJob>>)
    ensures jobMap == Buckets(AllJobs(results))
  {
    jobMap := map[];
    for i := 0 to |results|
      invariant jobMap == Buckets(AllJobs(results[..i]))
    {
      assert results[..i + 1][..i] == results[..i];
      jobMap := AddJobs(jobMap, AllJobs(results[..i]), results[i].jobs);
    }
    assert results[..|results|] == results;
  }

  // ---------------------------------------------------------------------------
  // RenderCharts: sorting numJobs

  predicate SortedInts(s: seq<int>)
  {
    forall k, l :: 0 <= k < l < |s| ==> s[k] <= s[l]
  }

  /** While an element sinks to place j: a[..i+1] is sorted apart from
      position j, and the element at j is below everything after it. */
  predicate Sinking(s: seq<int>, i: int, j: int)
    requires 0 <= j <= i < |s|
  {
    (forall k, l :: 0 <= k < l <= i && k != j && l != j ==> s[k] <= s[l])
    && (forall l :: j < l <= i ==> s[j] < s[l])
  }

  /** Swapping the sinking element with a larger left neighbour moves it one
      place down. */
  lemma SinkStep(s: seq<int>, i: int, j: int)
    requires 0 < j <= i < |s| && Sinking(s, i, j) && s[j - 1] > s[j]
    ensures Sinking(s[j - 1 := s[j]][j := s[j - 1]], i, j - 1)
    ensures multiset(s[j - 1 := s[j]][j := s[j - 1]]) == multiset(s)
  {
  }

  /** The element has stopped sinking: the prefix is sorted. */
  lemma SinkDone(s: seq<int>, i: int, j: int)
    requires 0 <= j <= i < |s| && Sinking(s, i, j) && (j == 0 || s[j - 1] <= s[j])
    ensures forall k, l :: 0 <= k < l <= i ==> s[k] <= s[l]
  {
  }

  /** One step of insertion sort: a[..i] is sorted; afterwards a[..i+1] is. */
  method InsertNext(a: array<int>, i: int)
    requires 0 <= i < a.Length
    requires forall k, l :: 0 <= k < l < i ==> a[k] <= a[l]
    modifies a
    ensures forall k, l :: 0 <= k < l <= i ==> a[k] <= a[l]
    ensures multiset(a[..]) == multiset(old(a[..]))
  {
    var j := i;
    while j > 0 && a[j - 1] > a[j]
      invariant 0 <= j <= i
      invariant Sinking(a[..], i, j)
      invariant multiset(a[..]) == multiset(old(a[..]))
    {
      SinkStep(a[..], i, j);
      a[j - 1], a[j] := a[j], a[j - 1];
      j := j - 1;
    }
    SinkDone(a[..], i, j);
  }

  /** sort.Slice(numJobs, less): ascending, in place. */
  method SortNumJobs(a: array<int>)
    modifies a
    ensures SortedInts(a[..])
    ensures multiset(a[..]) == multiset(old(a[..]))
  {
    var i := 0;
    while i < a.Length
      invariant 0 <= i <= a.Length
      invariant forall k, l :: 0 <= k < l < i ==> a[k] <= a[l]
      invariant multiset(a[..]) == multiset(old(a[..]))
    {
      InsertNext(a, i);
      i := i + 1;
    }
  }

  /** A sorted sequence is determined by its elements: the sort's result does
      not depend on the order it started in. */
  lemma {:induction false} SortedUnique(s: seq<int>, t: seq<int>)
    requires SortedInts(s) && SortedInts(t) && multiset(s) == multiset(t)
    ensures s == t
    decreases |s|
  {
    if s == [] {
      assert |t| == |multiset(t)| == 0;
    } else {
      SortedHeads(s, t);
      SortedUnique(s[1..], t[1..]);
      assert s == [s[0]] + s[1..] == [t[0]] + t[1..] == t;
    }
  }

  /** Two sorted sequences with the same elements start alike, and so do
      their tails. */
  lemma SortedHeads(s: seq<int>, t: seq<int>)
    requires SortedInts(s) && SortedInts(t) && multiset(s) == multiset(t) && s != []
    ensures t != [] && s[0] == t[0]
    ensures SortedInts(s[1..]) && SortedInts(t[1..]) && multiset(s[1..]) == multiset(t[1..])
  {
    assert |t| == |multiset(t)| == |multiset(s)| == |s|;
    SortedHeadIsLeast(s, t[0]);
    SortedHeadIsLeast(t, s[0]);
    SortedTail(s);
    SortedTail(t);
  }

  /** Dropping the head keeps a sequence sorted and removes one copy of the
      head from its elements. */
  lemma SortedTail(s: seq<int>)
    requires SortedInts(s) && s != []
    ensures SortedInts(s[1..])
    ensures multiset(s[1..]) == multiset(s) - multiset{s[0]}
  {
    assert s == [s[0]] + s[1..];
  }

  lemma SortedHeadIsLeast(s: seq<int>, x: int)
    requires SortedInts(s) && x in multiset(s)
    ensures s[0] <= x
  {
    assert x in s;
    var k :| 0 <= k < |s| && s[k] == x;
  }

  // ---------------------------------------------------------------------------
  // RenderCharts: the chart file

  /** The chart file name: "" becomes "chart-<uuid>.html", a name not ending in
      "html" gets ".html" appended, any other name is kept. */
  function ChartFileName(chartFile: string, uuid: string): (r: string)
    ensures HasSuffix(r, "html")
    ensures chartFile != "" ==> HasPrefix(r, chartFile)
    ensures chartFile == "" ==> HasPrefix(r, "chart-") && HasSuffix(r, ".html")
    ensures chartFile != "" && HasSuffix(chartFile, "html") ==> r == chartFile
    ensures chartFile == "" ==> r == "chart-" + uuid + ".html"
    ensures chartFile != "" && !HasSuffix(chartFile, "html") ==> r == chartFile + ".html"
  {
    if chartFile == "" then
      var r := "chart-" + uuid + ".html";
      assert r[..6] == "chart-";
      r
    else if !HasSuffix(chartFile, "html") then
      var r := chartFile + ".html";
      assert r[..|chartFile|] == chartFile;
      r
    else chartFile
  }

  /** Naming is idempotent: a name it produced is kept as it is. */
  lemma ChartFileNameIdempotent(chartFile: string, uuid: string, uuid2: string)
    ensures ChartFileName(ChartFileName(chartFile, uuid), uuid2) == ChartFileName(chartFile, uuid)
  {
  }

  /** RenderCharts: the jobs grouped by (rw, iodepth, bs, numjobs), numJobs
      sorted ascending in place, and the chart file named. Drawing and writing
      the page are left out; `writeChart` is the error creating or rendering
      the named file, if any. */
  method RenderCharts(results: seq<FioResult>, numJobs: array<int>, chartFile: string, uuid: string,
                      writeChart: string -> Option<GoError>)
    returns (buckets: map<BucketKey, seq<FioJob>>, fileName: string, err: Option<GoError>)
    modifies numJobs
    ensures buckets == Buckets(AllJobs(results))
    ensures SortedInts(numJobs[..]) && multiset(numJobs[..]) == multiset(old(numJobs[..]))
    ensures fileName == ChartFileName(chartFile, uuid) && err == writeChart(fileName)
  {
    buckets := BucketJobs(results);
    SortNumJobs(numJobs);
    fileName := ChartFileName(chartFile, uuid);
    err := writeChart(fileName);
  }
}
