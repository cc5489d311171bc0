/** Work items and the work queue (pkg/server/work_item.go): the test matrix
    built for every target, the queue keyed by target, and running one
    target's items in order. */
module WorkItems {
  import opened Wrappers
  import opened Exec
  import opened Settings
  import opened Device
  import opened Disk
  import opened Client

  /** One fio run: a target and one combination of the matrix dimensions. */
  datatype WorkItem = WorkItem(
    fileName: string,
    numJobs: int,
    blockSize: string,
    ioDepth: int,
    rw: string,
    runtime: nat,
    verify: bool,
    direct: bool,
    ioEngine: string)

  function ItemFor(fs: FioSettings, fileName: string, job: int, bs: string, depth: int, rw: string): WorkItem
  {
    WorkItem(fileName, job, bs, depth, rw, fs.runtime, fs.verify, fs.direct, fs.ioEngine)
  }

  // ---------------------------------------------------------------------------
  // The matrix, one function per loop level (numjobs, bs, iodepth, rw)

  /** The innermost loop: one item per rw pattern. */
  function RwItems(fs: FioSettings, fileName: string, job: int, bs: string, depth: int, rws: seq<string>)
    : (r: seq<WorkItem>)
    ensures |r| == |rws|
  {
    if rws == [] then []
    else RwItems(fs, fileName, job, bs, depth, rws[..|rws| - 1]) + [ItemFor(fs, fileName, job, bs, depth, rws[|rws| - 1])]
  }

  /** The iodepth loop. */
  function DepthItems(fs: FioSettings, fileName: string, job: int, bs: string, depths: seq<int>): (r: seq<WorkItem>)
    ensures |r| == |depths| * |fs.rw|
  {
    if depths == [] then []
    else
      var n := |depths| - 1;
      var r := DepthItems(fs, fileName, job, bs, depths[..n]) + RwItems(fs, fileName, job, bs, depths[n], fs.rw);
      assert |r| == n * |fs.rw| + |fs.rw| == (n + 1) * |fs.rw|;
      r
  }

  /** The block-size loop. */
  function SizeItems(fs: FioSettings, fileName: string, job: int, sizes: seq<string>): (r: seq<WorkItem>)
    ensures |r| == |sizes| * (|fs.ioDepth| * |fs.rw|)
  {
    if sizes == [] then []
    else
      var n := |sizes| - 1;
      var r := SizeItems(fs, fileName, job, sizes[..n]) + DepthItems(fs, fileName, job, sizes[n], fs.ioDepth);
      assert |r| == n * (|fs.ioDepth| * |fs.rw|) + |fs.ioDepth| * |fs.rw| == (n + 1) * (|fs.ioDepth| * |fs.rw|);
      r
  }

  /** The numjobs loop, outermost. */
  function JobItems(fs: FioSettings, fileName: string, jobs: seq<int>): (r: seq<WorkItem>)
    ensures |r| == |jobs| * (|fs.blockSize| * (|fs.ioDepth| * |fs.rw|))
  {
    if jobs == [] then []
    else
      var n := |jobs| - 1;
      var k := |fs.blockSize| * (|fs.ioDepth| * |fs.rw|);
      var r := JobItems(fs, fileName, jobs[..n]) + SizeItems(fs, fileName, jobs[n], fs.blockSize);
      assert |r| == n * k + k == (n + 1) * k;
      r
  }

  /** All items for one target. */
  function Matrix(fs: FioSettings, fileName: string): seq<WorkItem>
  {
    JobItems(fs, fileName, fs.numJobs)
  }

  /** The matrix has one item per combination, so it is empty exactly when
      one of the four dimension lists is. */
  lemma MatrixLength(fs: FioSettings, fileName: string)
    ensures |Matrix(fs, fileName)| == |fs.numJobs| * |fs.blockSize| * |fs.ioDepth| * |fs.rw|
    ensures |Matrix(fs, fileName)| == 0 <==>
      fs.numJobs == [] || fs.blockSize == [] || fs.ioDepth == [] || fs.rw == []
  {
    var a, b, c, d := |fs.numJobs|, |fs.blockSize|, |fs.ioDepth|, |fs.rw|;
    assert a * (b * (c * d)) == a * b * c * d;
    if a != 0 && b != 0 && c != 0 && d != 0 {
      assert c * d > 0;
      assert b * (c * d) > 0;
      assert a * (b * (c * d)) > 0;
    }
  }

  /** The items of the innermost loop are exactly the item for each rw pattern. */
  lemma {:induction false} RwItemsMembers(fs: FioSettings, fileName: string, job: int, bs: string, depth: int,
                                          rws: seq<string>, x: WorkItem)
    ensures x in RwItems(fs, fileName, job, bs, depth, rws) <==>
      x.rw in rws && x == ItemFor(fs, fileName, job, bs, depth, x.rw)
  {
    if rws != [] {
      var n := |rws| - 1;
      RwItemsMembers(fs, fileName, job, bs, depth, rws[..n], x);
      assert rws == rws[..n] + [rws[n]];
    }
  }

  lemma {:induction false} DepthItemsMembers(fs: FioSettings, fileName: string, job: int, bs: string,
                                             depths: seq<int>, x: WorkItem)
    ensures x in DepthItems(fs, fileName, job, bs, depths) <==>
      x.ioDepth in depths && x in RwItems(fs, fileName, job, bs, x.ioDepth, fs.rw)
    ensures x in DepthItems(fs, fileName, job, bs, depths) ==> x.blockSize == bs && x.numJobs == job
  {
    if depths != [] {
      var n := |depths| - 1;
      DepthItemsMembers(fs, fileName, job, bs, depths[..n], x);
      RwItemsMembers(fs, fileName, job, bs, depths[n], fs.rw, x);
      RwItemsMembers(fs, fileName, job, bs, x.ioDepth, fs.rw, x);
      assert depths == depths[..n] + [depths[n]];
    }
  }

  lemma {:induction false} SizeItemsMembers(fs: FioSettings, fileName: string, job: int, sizes: seq<string>,
                                            x: WorkItem)
    ensures x in SizeItems(fs, fileName, job, sizes) <==>
      x.blockSize in sizes && x in DepthItems(fs, fileName, job, x.blockSize, fs.ioDepth)
    ensures x in SizeItems(fs, fileName, job, sizes) ==> x.numJobs == job
  {
    if sizes != [] {
      var n := |sizes| - 1;
      SizeItemsMembers(fs, fileName, job, sizes[..n], x);
      DepthItemsMembers(fs, fileName, job, sizes[n], fs.ioDepth, x);
      DepthItemsMembers(fs, fileName, job, x.blockSize, fs.ioDepth, x);
      assert sizes == sizes[..n] + [sizes[n]];
    }
  }

  lemma {:induction false} JobItemsMembers(fs: FioSettings, fileName: string, jobs: seq<int>, x: WorkItem)
    ensures x in JobItems(fs, fileName, jobs) <==>
      x.numJobs in jobs && x in SizeItems(fs, fileName, x.numJobs, fs.blockSize)
  {
    if jobs != [] {
      var n := |jobs| - 1;
      JobItemsMembers(fs, fileName, jobs[..n], x);
      SizeItemsMembers(fs, fileName, jobs[n], fs.blockSize, x);
      SizeItemsMembers(fs, fileName, x.numJobs, fs.blockSize, x);
      assert jobs == jobs[..n] + [jobs[n]];
    }
  }

  /** The matrix for a target holds exactly the items for that target whose
      numjobs, bs, iodepth and rw come from the settings' lists and whose
      runtime, verify, direct and ioengine are the settings' own. */
  lemma MatrixMembers(fs: FioSettings, fileName: string, x: WorkItem)
    ensures x in Matrix(fs, fileName) <==>
      x.fileName == fileName
      && x.numJobs in fs.numJobs && x.blockSize in fs.blockSize && x.ioDepth in fs.ioDepth && x.rw in fs.rw
      && x.runtime == fs.runtime && x.verify == fs.verify && x.direct == fs.direct && x.ioEngine == fs.ioEngine
  {
    JobItemsMembers(fs, fileName, fs.numJobs, x);
    SizeItemsMembers(fs, fileName, x.numJobs, fs.blockSize, x);
    DepthItemsMembers(fs, fileName, x.numJobs, x.blockSize, fs.ioDepth, x);
    RwItemsMembers(fs, fileName, x.numJobs, x.blockSize, x.ioDepth, fs.rw, x);
  }

  // ---------------------------------------------------------------------------
  // The order of the matrix: row-major over (numjobs, bs, iodepth, rw)

  lemma IndexBound(c: nat, n: nat, d: nat, k: nat)
    requires c < n && d < k
    ensures c * k + d < n * k
  {
    assert (c + 1) * k <= n * k;
  }

  /** The d-th item of the innermost loop is for the d-th rw pattern. */
  lemma {:induction false} RwItemsAt(fs: FioSettings, fileName: string, job: int, bs: string, depth: int,
                                     rws: seq<string>, d: nat)
    requires d < |rws|
    ensures RwItems(fs, fileName, job, bs, depth, rws)[d] == ItemFor(fs, fileName, job, bs, depth, rws[d])
  {
    var n := |rws| - 1;
    if d < n {
      RwItemsAt(fs, fileName, job, bs, depth, rws[..n], d);
    }
  }

  /** Position c * len(rw) + d of the iodepth loop is for the c-th depth and
      the d-th rw pattern. */
  lemma {:induction false} DepthItemsAt(fs: FioSettings, fileName: string, job: int, bs: string,
                                        depths: seq<int>, c: nat, d: nat)
    requires c < |depths| && d < |fs.rw|
    ensures c * |fs.rw| + d < |depths| * |fs.rw|
    ensures DepthItems(fs, fileName, job, bs, depths)[c * |fs.rw| + d]
            == ItemFor(fs, fileName, job, bs, depths[c], fs.rw[d])
  {
    var n := |depths| - 1;
    IndexBound(c, |depths|, d, |fs.rw|);
    if c < n {
      IndexBound(c, n, d, |fs.rw|);
      DepthItemsAt(fs, fileName, job, bs, depths[..n], c, d);
    } else {
      RwItemsAt(fs, fileName, job, bs, depths[n], fs.rw, d);
    }
  }

  /** Position b * (len(iodepth) * len(rw)) + i of the block-size loop is
      position i of the iodepth loop for the b-th block size. */
  lemma {:induction false} SizeItemsAt(fs: FioSettings, fileName: string, job: int, sizes: seq<string>,
                                       b: nat, i: nat)
    requires b < |sizes| && i < |fs.ioDepth| * |fs.rw|
    ensures b * (|fs.ioDepth| * |fs.rw|) + i < |sizes| * (|fs.ioDepth| * |fs.rw|)
    ensures SizeItems(fs, fileName, job, sizes)[b * (|fs.ioDepth| * |fs.rw|) + i]
            == DepthItems(fs, fileName, job, sizes[b], fs.ioDepth)[i]
  {
    var n := |sizes| - 1;
    var k := |fs.ioDepth| * |fs.rw|;
    IndexBound(b, |sizes|, i, k);
    var prefix := SizeItems(fs, fileName, job, sizes[..n]);
    assert SizeItems(fs, fileName, job, sizes) == prefix + DepthItems(fs, fileName, job, sizes[n], fs.ioDepth);
    if b < n {
      IndexBound(b, n, i, k);
      SizeItemsAt(fs, fileName, job, sizes[..n], b, i);
    }
  }

  /** Position a * (len(bs) * len(iodepth) * len(rw)) + i of the numjobs loop
      is position i of the block-size loop for the a-th numjobs value. */
  lemma {:induction false} JobItemsAt(fs: FioSettings, fileName: string, jobs: seq<int>, a: nat, i: nat)
    requires a < |jobs| && i < |fs.blockSize| * (|fs.ioDepth| * |fs.rw|)
    ensures a * (|fs.blockSize| * (|fs.ioDepth| * |fs.rw|)) + i < |jobs| * (|fs.blockSize| * (|fs.ioDepth| * |fs.rw|))
    ensures JobItems(fs, fileName, jobs)[a * (|fs.blockSize| * (|fs.ioDepth| * |fs.rw|)) + i]
            == SizeItems(fs, fileName, jobs[a], fs.blockSize)[i]
  {
    var n := |jobs| - 1;
    var k := |fs.blockSize| * (|fs.ioDepth| * |fs.rw|);
    IndexBound(a, |jobs|, i, k);
    var prefix := JobItems(fs, fileName, jobs[..n]);
    assert JobItems(fs, fileName, jobs) == prefix + SizeItems(fs, fileName, jobs[n], fs.blockSize);
    if a < n {
      IndexBound(a, n, i, k);
      JobItemsAt(fs, fileName, jobs[..n], a, i);
    }
  }

  /** The row-major position of a combination of the four dimensions,
      computed level by level as the loops lay the items out. */
  function MatrixIndex(fs: FioSettings, a: nat, b: nat, c: nat, d: nat): (r: nat)
    ensures r == ((a * |fs.blockSize| + b) * |fs.ioDepth| + c) * |fs.rw| + d
  {
    var B, D, R := |fs.blockSize|, |fs.ioDepth|, |fs.rw|;
    RowMajor(a, b, c, d, B, D, R);
    a * (B * (D * R)) + (b * (D * R) + (c * R + d))
  }

  /** The matrix is in the order of the four nested loops: numjobs outermost,
      then bs, then iodepth, then rw innermost. The item at the row-major
      position of indices (a, b, c, d) is the item for the a-th numjobs, b-th
      bs, c-th iodepth and d-th rw. */
  lemma MatrixAt(fs: FioSettings, fileName: string, a: nat, b: nat, c: nat, d: nat)
    requires a < |fs.numJobs| && b < |fs.blockSize| && c < |fs.ioDepth| && d < |fs.rw|
    ensures MatrixIndex(fs, a, b, c, d) < |Matrix(fs, fileName)|
    ensures Matrix(fs, fileName)[MatrixIndex(fs, a, b, c, d)]
            == ItemFor(fs, fileName, fs.numJobs[a], fs.blockSize[b], fs.ioDepth[c], fs.rw[d])
  {
    var B, D, R := |fs.blockSize|, |fs.ioDepth|, |fs.rw|;
    var i := c * R + d;
    DepthItemsAt(fs, fileName, fs.numJobs[a], fs.blockSize[b], fs.ioDepth, c, d);
    var j := b * (D * R) + i;
    SizeItemsAt(fs, fileName, fs.numJobs[a], fs.blockSize, b, i);
    JobItemsAt(fs, fileName, fs.numJobs, a, j);
    var K := B * (D * R);
    assert MatrixIndex(fs, a, b, c, d) == a * K + j;
    assert Matrix(fs, fileName)[a * K + j] == SizeItems(fs, fileName, fs.numJobs[a], fs.blockSize)[j];
  }

  lemma RowMajor(a: nat, b: nat, c: nat, d: nat, B: nat, D: nat, R: nat)
    ensures ((a * B + b) * D + c) * R + d == a * (B * (D * R)) + (b * (D * R) + (c * R + d))
  {
    calc {
      ((a * B + b) * D + c) * R + d;
      (a * B * D + b * D + c) * R + d;
      a * B * D * R + b * D * R + c * R + d;
    }
  }

  // ---------------------------------------------------------------------------
  // Building the matrix: the four nested loops, one method per level

  method AppendRw(items: seq<WorkItem>, fs: FioSettings, fileName: string, job: int, bs: string, depth: int)
    returns (out: seq<WorkItem>)
    ensures out == items + RwItems(fs, fileName, job, bs, depth, fs.rw)
  {
    out := items;
    for d := 0 to |fs.rw|
      invariant out == items + RwItems(fs, fileName, job, bs, depth, fs.rw[..d])
    {
      assert fs.rw[..d + 1][..d] == fs.rw[..d];
      out := out + [ItemFor(fs, fileName, job, bs, depth, fs.rw[d])];
    }
    assert fs.rw[..|fs.rw|] == fs.rw;
  }

  method AppendDepths(items: seq<WorkItem>, fs: FioSettings, fileName: string, job: int, bs: string)
    returns (out: seq<WorkItem>)
    ensures out == items + DepthItems(fs, fileName, job, bs, fs.ioDepth)
  {
    out := items;
    for c := 0 to |fs.ioDepth|
      invariant out == items + DepthItems(fs, fileName, job, bs, fs.ioDepth[..c])
    {
      assert fs.ioDepth[..c + 1][..c] == fs.ioDepth[..c];
      out := AppendRw(out, fs, fileName, job, bs, fs.ioDepth[c]);
    }
    assert fs.ioDepth[..|fs.ioDepth|] == fs.ioDepth;
  }

  method AppendSizes(items: seq<WorkItem>, fs: FioSettings, fileName: string, job: int)
    returns (out: seq<WorkItem>)
    ensures out == items + SizeItems(fs, fileName, job, fs.blockSize)
  {
    out := items;
    for b := 0 to |fs.blockSize|
      invariant out == items + SizeItems(fs, fileName, job, fs.blockSize[..b])
    {
      assert fs.blockSize[..b + 1][..b] == fs.blockSize[..b];
      out := AppendDepths(out, fs, fileName, job, fs.blockSize[b]);
    }
    assert fs.blockSize[..|fs.blockSize|] == fs.blockSize;
  }

  /** The items NewWorkQueue builds for one target (work_item.go:50-71 for a
      named file, 96-115 for a device). */
  method BuildItems(fs: FioSettings, fileName: string) returns (items: seq<WorkItem>)
    ensures items == Matrix(fs, fileName)
  {
    items := [];
    for a := 0 to |fs.numJobs|
      invariant items == JobItems(fs, fileName, fs.numJobs[..a])
    {
      assert fs.numJobs[..a + 1][..a] == fs.numJobs[..a];
      items := AppendSizes(items, fs, fileName, fs.numJobs[a]);
    }
    assert fs.numJobs[..|fs.numJobs|] == fs.numJobs;
  }

  // ---------------------------------------------------------------------------
  // The queue

  type Queue = map<string, seq<WorkItem>>

  /** The queue of named files: a file is queued when its matrix is not empty;
      a repeated name is queued once. */
  function ExplicitQueue(fs: FioSettings, names: seq<string>): Queue
  {
    if names == [] then map[]
    else
      var q := ExplicitQueue(fs, names[..|names| - 1]);
      var name := names[|names| - 1];
      var items := Matrix(fs, name);
      if |items| > 0 then q[name := items] else q
  }

  lemma {:induction false} ExplicitQueueEntries(fs: FioSettings, names: seq<string>, f: string)
    ensures f in ExplicitQueue(fs, names) <==> f in names && |Matrix(fs, f)| > 0
    ensures f in ExplicitQueue(fs, names) ==> ExplicitQueue(fs, names)[f] == Matrix(fs, f)
  {
    if names != [] {
      var n := |names| - 1;
      ExplicitQueueEntries(fs, names[..n], f);
      assert names == names[..n] + [names[n]];
    }
  }

  /** The explicit queue: every named file with its full matrix when all
      four dimension lists are given, and nothing at all otherwise. */
  lemma ExplicitQueueContents(fs: FioSettings, f: string)
    ensures f in ExplicitQueue(fs, fs.fileName) <==>
      f in fs.fileName && fs.numJobs != [] && fs.blockSize != [] && fs.ioDepth != [] && fs.rw != []
    ensures f in ExplicitQueue(fs, fs.fileName) ==> ExplicitQueue(fs, fs.fileName)[f] == Matrix(fs, f)
  {
    ExplicitQueueEntries(fs, fs.fileName, f);
    MatrixLength(fs, f);
  }

  method BuildExplicitQueue(fs: FioSettings) returns (queue: Queue)
    ensures queue == ExplicitQueue(fs, fs.fileName)
  {
    queue := map[];
    for i := 0 to |fs.fileName|
      invariant queue == ExplicitQueue(fs, fs.fileName[..i])
    {
      assert fs.fileName[..i + 1][..i] == fs.fileName[..i];
      var fileName := fs.fileName[i];
      var items := BuildItems(fs, fileName);
      if |items| > 0 {
        queue := queue[fileName := items];
      }
    }
    assert fs.fileName[..|fs.fileName|] == fs.fileName;
  }

  /** A discovered device is tested when it is a whole disk, not on USB, not
      holding the root filesystem, empty, and without children. */
  predicate DeviceTarget(d: LocalDevice)
  {
    d.deviceType == DiskType && d.bus != DiskBusUsb && !d.isRoot && d.empty && !d.hasChildren
  }

  /** The device queue: every target device under its real path, with its
      matrix (queued even when the matrix is empty). */
  function DeviceQueue(fs: FioSettings, disks: map<string, LocalDevice>): (q: Queue)
    requires forall k :: k in disks ==> disks[k].realPath == k
    ensures forall k :: k in q <==> k in disks && DeviceTarget(disks[k])
    ensures forall k :: k in q ==> q[k] == Matrix(fs, k)
  {
    map k | k in disks && DeviceTarget(disks[k]) :: Matrix(fs, k)
  }

  /** The device loop (work_item.go:86-116), in the map's iteration order. */
  method BuildDeviceQueue(fs: FioSettings, disks: map<string, LocalDevice>) returns (queue: Queue)
    requires forall k :: k in disks ==> disks[k].realPath == k
    ensures queue == DeviceQueue(fs, disks)
  {
    queue := map[];
    var todo := disks.Keys;
    while todo != {}
      invariant todo <= disks.Keys
      invariant queue == map k | k in disks.Keys - todo && DeviceTarget(disks[k]) :: Matrix(fs, k)
      decreases todo
    {
      var name :| name in todo;
      var d := disks[name];
      todo := todo - {name};
      if DeviceTarget(d) {
        var items := BuildItems(fs, d.realPath);
        queue := queue[d.realPath := items];
      }
    }
  }

  /** What NewWorkQueue returns: a queue, (nil, nil), the discovery error, or
      the crash of the root walk inside discovery. */
  datatype QueueOutcome = Queued(queue: Queue) | NilQueue | QueueFailed(error: GoError) | QueueCrashes

  /** The actual root walk leaves every discovered device under its own name. */
  lemma DiscoveredRealPaths(exec: Executor, inContainer: bool)
    requires Discover(exec, inContainer).Discovered?
    ensures var disks := Discover(exec, inContainer).disks;
      forall k :: k in disks ==> disks[k].realPath == k
  {
    var output := DiscoveryQuery(exec).value;
    forall k | k in Discover(exec, inContainer).disks
      ensures Discover(exec, inContainer).disks[k].realPath == k
    {
      DiscoveredKeys(exec, inContainer, output, k);
    }
  }

  ghost function NewQueue(settings: TestSettings, exec: Executor, inContainer: bool): QueueOutcome
    requires settings.fioSettings.Some?
  {
    var fs := settings.fioSettings.value;
    var named := ExplicitQueue(fs, fs.fileName);
    if |named| > 0 then Queued(named)
    else if !settings.useAllDisks then NilQueue
    else
      match Discover(exec, inContainer)
      case DiscoveryFailed(e) => QueueFailed(e)
      case WalkCrashes => QueueCrashes
      case Discovered(disks) =>
        DiscoveredRealPaths(exec, inContainer);
        Queued(DeviceQueue(fs, disks))
  }

  /** NewWorkQueue: the named files when any is queued; otherwise nothing, or
      (with use_all_disks) the empty, unused whole disks found by discovery.
      `inContainer` is read from the environment by discovery. */
  method NewWorkQueue(settings: TestSettings, exec: Executor, inContainer: bool) returns (r: QueueOutcome)
    requires settings.fioSettings.Some?
    ensures r == NewQueue(settings, exec, inContainer)
  {
    var fs := settings.fioSettings.value;
    var queue := BuildExplicitQueue(fs);
    if |queue| > 0 {
      return Queued(queue);
    }
    if !settings.useAllDisks {
      return NilQueue;
    }
    var devices := DiscoverDevices(exec, inContainer);
    match devices {
      case DiscoveryFailed(e) =>
        return QueueFailed(e);
      case WalkCrashes =>
        return QueueCrashes;
      case Discovered(disks) =>
        DiscoveredRealPaths(exec, inContainer);
        var q := BuildDeviceQueue(fs, disks);
        return Queued(q);
    }
  }

  /** Named files take precedence: when every dimension list is given and a
      file is named, the queue is exactly the named files and discovery is
      not consulted. */
  lemma NamedFilesWin(settings: TestSettings, exec: Executor, inContainer: bool)
    requires settings.fioSettings.Some?
    requires var fs := settings.fioSettings.value;
      fs.fileName != [] && fs.numJobs != [] && fs.blockSize != [] && fs.ioDepth != [] && fs.rw != []
    ensures NewQueue(settings, exec, inContainer).Queued?
    ensures forall f :: f in NewQueue(settings, exec, inContainer).queue <==> f in settings.fioSettings.value.fileName
  {
    var fs := settings.fioSettings.value;
    ExplicitQueueContents(fs, fs.fileName[0]);
    assert fs.fileName[0] in ExplicitQueue(fs, fs.fileName);
    forall f ensures f in ExplicitQueue(fs, fs.fileName) <==> f in fs.fileName {
      ExplicitQueueContents(fs, f);
    }
  }

  /** With a dimension list empty, named files give no queue; without
      use_all_disks the result is (nil, nil). */
  lemma EmptyDimensionGivesNil(settings: TestSettings, exec: Executor, inContainer: bool)
    requires settings.fioSettings.Some? && !settings.useAllDisks
    requires var fs := settings.fioSettings.value;
      fs.numJobs == [] || fs.blockSize == [] || fs.ioDepth == [] || fs.rw == []
    ensures NewQueue(settings, exec, inContainer) == NilQueue
  {
    var fs := settings.fioSettings.value;
    var named := ExplicitQueue(fs, fs.fileName);
    if |named| > 0 {
      var f :| f in named;
      ExplicitQueueContents(fs, f);
    }
  }

  // ---------------------------------------------------------------------------
  // Running the items of one target

  /** A run of fio: the item and the job-name suffix to its outcome. */
  type Runner = (WorkItem, string) -> Result<Option<FioResult>, GoError>

  /** The runner Do uses: FioTest with the item's fields. */
  function FioRunner(exec: Executor, decode: Decoder, dryrun: bool): Runner
  {
    (wi: WorkItem, uuid: string) =>
      FioTest(exec, decode, wi.fileName, wi.numJobs, wi.blockSize, wi.ioDepth, wi.rw, wi.runtime,
              wi.ioEngine, wi.verify, wi.direct, dryrun, uuid)
  }

  /** The run of `wi` yields a report. */
  predicate Succeeds(run: Runner, wi: WorkItem, uuid: string)
  {
    run(wi, uuid).Ok? && run(wi, uuid).value.Some?
  }

  /** The results of running `items` in order: failed runs and nil results are
      skipped. `uuid(i)` names the i-th run. Dropping the page cache before
      each run only logs its error, so it has no effect here. */
  function Collect(run: Runner, items: seq<WorkItem>, uuid: nat -> string): (results: seq<FioResult>)
    ensures |results| <= |items|
  {
    if items == [] then []
    else
      var n := |items| - 1;
      var prior := Collect(run, items[..n], uuid);
      if Succeeds(run, items[n], uuid(n)) then prior + [run(items[n], uuid(n)).value.value] else prior
  }

  /** A dry run produces no results. */
  lemma {:induction false} DryRunHasNoResults(exec: Executor, decode: Decoder, items: seq<WorkItem>,
                                              uuid: nat -> string)
    ensures Collect(FioRunner(exec, decode, true), items, uuid) == []
  {
    if items != [] {
      DryRunHasNoResults(exec, decode, items[..|items| - 1], uuid);
    }
  }

  /** Every result comes from a run that succeeded with a non-nil report. */
  lemma {:induction false} ResultsComeFromRuns(run: Runner, items: seq<WorkItem>, uuid: nat -> string, k: nat)
    requires k < |Collect(run, items, uuid)|
    ensures exists i :: (0 <= i < |items| && Succeeds(run, items[i], uuid(i))
      && run(items[i], uuid(i)).value.value == Collect(run, items, uuid)[k])
  {
    var n := |items| - 1;
    var results := Collect(run, items, uuid);
    var prior := Collect(run, items[..n], uuid);
    if k < |prior| {
      assert results[k] == prior[k];
      ResultsComeFromRuns(run, items[..n], uuid, k);
      var i :| 0 <= i < n && Succeeds(run, items[..n][i], uuid(i))
        && run(items[..n][i], uuid(i)).value.value == prior[k];
      assert items[..n][i] == items[i];
    } else {
      assert Succeeds(run, items[n], uuid(n));
    }
  }

  /** The results are in item order: they are the reports of the succeeding
      runs, taken at a strictly increasing sequence of item positions that
      holds every position whose run succeeds. */
  lemma {:induction false} CollectOrder(run: Runner, items: seq<WorkItem>, uuid: nat -> string)
    returns (idx: seq<nat>)
    ensures |idx| == |Collect(run, items, uuid)|
    ensures forall k :: 0 <= k < |idx| ==>
      idx[k] < |items| && Succeeds(run, items[idx[k]], uuid(idx[k]))
      && Collect(run, items, uuid)[k] == run(items[idx[k]], uuid(idx[k])).value.value
    ensures forall k1, k2 :: 0 <= k1 < k2 < |idx| ==> idx[k1] < idx[k2]
    ensures forall i :: 0 <= i < |items| && Succeeds(run, items[i], uuid(i)) ==> i in idx
  {
    if items == [] {
      return [];
    }
    var n := |items| - 1;
    var init := items[..n];
    var prior := CollectOrder(run, init, uuid);
    var before := Collect(run, init, uuid);
    forall i | 0 <= i < n
      ensures init[i] == items[i]
    {
    }
    if Succeeds(run, items[n], uuid(n)) {
      idx := prior + [n];
      assert Collect(run, items, uuid) == before + [run(items[n], uuid(n)).value.value];
    } else {
      idx := prior;
      assert Collect(run, items, uuid) == before;
    }
    forall i | 0 <= i < |items| && Succeeds(run, items[i], uuid(i))
      ensures i in idx
    {
      if i < n {
        assert Succeeds(run, init[i], uuid(i));
      }
    }
  }

  /** Conversely, every run that succeeded with a report contributes it. */
  lemma {:induction false} RunsGiveResults(run: Runner, items: seq<WorkItem>, uuid: nat -> string, i: nat)
    requires i < |items| && Succeeds(run, items[i], uuid(i))
    ensures run(items[i], uuid(i)).value.value in Collect(run, items, uuid)
  {
    var n := |items| - 1;
    if i < n {
      assert items[..n][i] == items[i];
      RunsGiveResults(run, items[..n], uuid, i);
    }
  }

  /** WorkItems.Do: runs every item in order and never fails. */
  method Do(items: seq<WorkItem>, exec: Executor, decode: Decoder, dryrun: bool, uuid: nat -> string)
    returns (results: seq<FioResult>, err: Option<GoError>)
    ensures results == Collect(FioRunner(exec, decode, dryrun), items, uuid)
    ensures err == None
  {
    results := [];
    for i := 0 to |items|
      invariant results == Collect(FioRunner(exec, decode, dryrun), items[..i], uuid)
    {
      assert items[..i + 1][..i] == items[..i];
      var wi := items[i];
      var result := FioTest(exec, decode, wi.fileName, wi.numJobs, wi.blockSize, wi.ioDepth, wi.rw, wi.runtime,
                            wi.ioEngine, wi.verify, wi.direct, dryrun, uuid(i));
      if result.Err? {
        continue;
      }
      if result.value.Some? {
        results := results + [result.value.value];
      }
    }
    assert items[..|items|] == items;
    err := None;
  }
}
