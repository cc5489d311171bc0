# fio-benchmark core in Dafny

This project models the core of fio-benchmark. fio-benchmark is a Go tool that benchmarks the block devices and files of one host with `fio`. The model covers:

- **Device discovery.** `pkg/util/sys/disk.go` and `device.go` run `lsblk`, `udevadm` and `dmsetup` and parse their output into `LocalDevice` records. Discovery then walks the parent chains of the devices mounted at the root.
- **The work queue.** `pkg/server/work_item.go` builds the test matrix: every combination of numjobs × block size × iodepth × rw, per named file or per discovered empty disk.
- **The benchmark server.** `pkg/server/fio.go` caps the number of workers and dispatches one unit per target to a token pool. It then merges the results, groups the jobs for the charts and names the chart file.
- **The settings check** in `pkg/server/settings.go`.
- **The fio client.** `pkg/daemon/client/fio.go` builds fio's command line, runs fio, and groups and sorts the jobs for charting.
- **The `generate-charts` command** in `cmd/charts.go`, which decodes a CSV report.
- **The executor helpers** in `pkg/util/exec/exec.go`: output trimming, the error text of a failed process, and exit-code extraction.

How the model represents the outside world:

- The command executor is a function from a command and its arguments to a `ProcessOutcome`: stdout alone, stdout and stderr combined, and an optional error. The captured stderr of a failed process travels in the `ExitError` variant of that error.
- The following are all parameters: the JSON decoder of fio's report, the CSV reader, the chart writer, the `SMD_IN_CONTAINER` environment flag (`inContainer`) and the UUID generator (`uuid`).
- Go's `uint64` arithmetic is written out modulo 2^64 (`AddUint64`, `SubUint64`). `strconv.ParseInt`/`ParseUint`/`ParseBool`, `strings.Split`/`TrimSpace`/`Contains` and the rest are modelled in `strings.dfy`.
- A Go map's range order is an arbitrary choice (`:|`) in the methods. The contracts hold for every order.

Pure computations are functions with lemmas. The code that loops over and updates state is modelled as methods with loop invariants, each proved equal to a specification function. That code is the key=value parser, the udev parser, the partition scan, the grouping of lsblk records, the root walk, the four nested matrix loops, the bucketing, the numjobs sort on an array, the CSV record loop and the server's dispatcher. The server is a class whose methods keep the token invariant `Valid()`.

## Model

| member | source | states |
|---|---|---|
| Exec.ExecuteCommandWithOutput | pkg/util/exec/exec.go:107-111 | fails exactly when the process fails, with that error; otherwise yields the whitespace-trimmed stdout |
| Exec.RunCommandWithOutput | pkg/util/exec/exec.go:162-183 | the error is the process's own; the output never starts or ends with white space |
| Exec.RunCommandOutputShape | pkg/util/exec/exec.go:167-176 | the output is the raw output with white space trimmed; without combined output an ExitError appends ". " and stderr, and a success keeps stdout alone |
| Exec.AssertErrorType | pkg/util/exec/exec.go:189-198 | an ExitError gives its stderr, an exec.Error gives its message, any other error gives "" |
| Exec.ExtractExitCode | pkg/util/exec/exec.go:202-227 | typed exit errors give their code; any other error whose message holds the exit-code phrase gives Atoi of the trimmed text after its first occurrence, up to the next one; an error without the phrase gives -1 and an error |
| Exec.ExtractExitCodeAfterPrefix | pkg/util/exec/exec.go:221-223 | for any untyped error whose message is some text without an earlier occurrence of the phrase, then "command terminated with exit code n", the result is exactly n for every 64-bit n |
| Strings.IndexOfAfterPrefix | pkg/util/exec/exec.go:221-222 | in p + sub + t with no occurrence of sub starting inside p, the first occurrence is at len(p) |
| Exec.ExtractExitCodeFromMessage | pkg/util/exec/exec.go:221-223 | for every 64-bit n, the message "command terminated with exit code n" gives back exactly n |
| Exec.SpacedNumberHasNoMarker | pkg/util/exec/exec.go:222-223 | the piece after the marker holds no second marker |
| Strings.AtoiIntToString | pkg/util/exec/exec.go:223 | strconv.Atoi inverts the decimal rendering of every 64-bit integer |
| Strings.JoinSplit | pkg/util/sys/device.go:283 | strings.Split loses nothing: joining the pieces with the separator gives the input back |
| Strings.SplitLength | pkg/util/sys/device.go:283 | Split yields one more piece than the separator occurs |
| Strings.SplitSingleton | pkg/util/sys/device.go:312-313 | Split yields a single piece iff the separator does not occur |
| Strings.TrimSpaceShape | pkg/util/exec/exec.go:176 | TrimSpace removes only leading and trailing white space, leaving a contiguous slice of the input |
| Strings.TrimSpaceIdempotent | pkg/util/exec/exec.go:176 | trimming twice equals trimming once |
| Strings.NatToStringRoundTrip | pkg/daemon/client/fio.go:31 | the decimal rendering of n reads back as n |
| Strings.ParseInt | cmd/charts.go:56 | text that is not a signed numeral gives 0 and an error; a numeral succeeds iff its value is in the signed range, and then gives that value; a numeral above the range gives the maximum and an error, one below it the minimum and an error |
| Strings.IndexOf | pkg/util/exec/exec.go:221-222 | finds an occurrence iff the substring is contained; the index is an occurrence and no occurrence starts before it |
| Strings.RemoveCharKeeps | pkg/util/sys/device.go:292 | removing quotes introduces no new characters |
| Device.DevicePathNormalises | pkg/util/sys/device.go:113-119 | a bare name becomes "/dev/" + name, a path is kept; the result is a path and normalising is idempotent |
| Device.ParseKeyValuePairString | pkg/util/sys/device.go:280-297 | the loop computes KvPairs of the space-separated tokens |
| Device.PairTokenRecorded | pkg/util/sys/device.go:288-292 | a token is recorded iff it splits into exactly two parts at '='; the key is the first part and the value the second without quotes |
| Device.KvPairsKeys | pkg/util/sys/device.go:286-294 | a key is present iff some token is a pair for it |
| Device.KvPairsLastWins | pkg/util/sys/device.go:292 | a repeated key keeps the value of its last pair token |
| Device.KvPairsClean | pkg/util/sys/device.go:288-292 | no key or value contains '=' and no value contains '"' |
| Device.ParseUdevInfo | pkg/util/sys/device.go:308-318 | the loop computes UdevPairs of the lines |
| Device.UdevLineRecorded | pkg/util/sys/device.go:312-314 | a line is recorded iff it holds '='; key and value are the first two '='-pieces |
| Device.UdevPairsKeys | pkg/util/sys/device.go:311-316 | a key is present iff some line holds '=' with that key |
| Device.UdevPairsLastWins | pkg/util/sys/device.go:314 | a repeated key keeps the value of its last line |
| Device.UdevPairsValues | pkg/util/sys/device.go:314 | no value contains '=' |
| Device.ParseFSLastLine | pkg/util/sys/device.go:300-306 | the filesystem is the value of the last ID_FS_TYPE line |
| Device.ParseFSAbsent | pkg/util/sys/device.go:305 | without an ID_FS_TYPE line the filesystem is "" |
| Device.CephLvmPrefixForms | pkg/util/sys/device.go:176-183 | true iff the name starts with "ceph--" directly, after "/dev/mapper/" or after "/dev/" |
| Device.DeviceClass | pkg/util/sys/device.go:250-258 | one of hdd/nvme/ssd; hdd iff rotational; nvme iff not rotational and the real path contains "nvme" |
| Device.GetDevicePropertiesFromPath | pkg/util/sys/device.go:198-207 | the exact lsblk query; its error, or the pairs of its output |
| Device.DevicePropertiesKeys | pkg/util/sys/device.go:198-207 | on a successful lsblk query, a property is present iff some token of the output is a KEY="value" pair for it |
| Device.DevicePropertiesLastWins | pkg/util/sys/device.go:198-207 | on a successful lsblk query, a property's value is that of the last pair token for it |
| Device.GetDeviceProperties | pkg/util/sys/device.go:186-195 | a bare name is queried as "/dev/" + name, a path as given |
| Device.IsLV | pkg/util/sys/device.go:210-220 | fails iff the query fails or reports no TYPE; otherwise true iff TYPE is "lvm" |
| Device.IsLVFromLastTypeToken | pkg/util/sys/device.go:215-219 | on a successful query the answer comes from the last TYPE token of the output |
| Device.IsLVWithoutTypeToken | pkg/util/sys/device.go:216-218 | an output without a TYPE token is an error |
| Device.GetUdevInfo | pkg/util/sys/device.go:223-234 | the exact udevadm query; its error, or the udev pairs of its lines |
| Device.UdevInfoKeys | pkg/util/sys/device.go:223-234 | on a successful udevadm query, a key is present iff some output line sets it |
| Device.UdevInfoLastWins | pkg/util/sys/device.go:223-234 | on a successful udevadm query, a key's value is the one set by the last line for it |
| Device.GetDeviceFilesystems | pkg/util/sys/device.go:237-248 | fails iff the same udev query fails |
| Device.FilesystemsAgreeWithUdevInfo | pkg/util/sys/device.go:237-248 | the filesystem is the udev map's ID_FS_TYPE, or "" when absent |
| Device.GetLVNameFields | pkg/util/sys/device.go:261-275 | after both dmsetup calls succeed: an error iff the splitname output has no ':'; otherwise the output starts with VG ':' LV and the answer is "VG/LV" |
| Device.ListDevicesChild | pkg/util/sys/device.go:325-336 | on failure an empty list and the error; otherwise the output's lines, which join back to it |
| Device.IsDeviceEncrypted | pkg/util/sys/device.go:339-346 | true iff lsblk's TYPE output is exactly "crypt"; the query's error otherwise |
| Device.ScanPartitionLine | pkg/util/sys/device.go:131-167 | one iteration of the partition loop computes ScanLine |
| Device.GetDevicePartitions | pkg/util/sys/device.go:111-174 | the loop computes DevicePartitions: the query error, the first failing line's error, or the partitions and the unused space |
| Device.DevicePartitions | pkg/util/sys/device.go:121-126 | a failed lsblk query is an error; the unused space fits in a uint64 |
| Device.ScanErrorSticks | pkg/util/sys/device.go:137-152 | the first failing line decides the error; later lines are not read |
| Device.ScanLineStep | pkg/util/sys/device.go:130-167 | a line succeeds iff its size (and for partitions the udev query) can be read; it appends exactly that line's entry (a partition with size, label and filesystem, a ceph LV by name, or nothing) and keeps the total accounted |
| Device.ScanLinesOutcome | pkg/util/sys/device.go:130-168 | the scan succeeds iff every line does; the partitions are then exactly the per-line entries in line order: for a partition of the device its name, its parsed size, the label from ID_PART_ENTRY_NAME or else PARTNAME and the filesystem from ID_FS_TYPE of its udev info; for a ceph LV its name alone. The total is their size sum modulo 2^64 |
| Device.ScanDeviceSize | pkg/util/sys/device.go:133-139 | the device size is the SIZE of the last line naming the device |
| Device.ScanNoDeviceLine | pkg/util/sys/device.go:128 | without a line naming the device its size stays 0 |
| Device.UnusedSpaceAccounting | pkg/util/sys/device.go:170-172 | the unused space is 0 for a zero size and otherwise the device size minus the partition sizes, wrapped to 64 bits; exact when the partitions fit |
| Device.NoDeviceLineNoUnusedSpace | pkg/util/sys/device.go:170-173 | without a line naming the device the unused space is 0 |
| Disk.RbdNamesIgnored | pkg/util/sys/disk.go:25 | every name matching `^(?:/dev/)?rbd[0-9]+p?[0-9]*$` is ignored |
| Disk.IgnoredNamesAreRbd | pkg/util/sys/disk.go:25 | every ignored name has that shape |
| Disk.NonRbdNamesKept | pkg/util/sys/disk.go:47-49 | a name not containing "rbd" is never ignored |
| Disk.PopulateDeviceInfo | pkg/util/sys/disk.go:136-193 | succeeds iff the record exists with a supported TYPE; each field is the record's value (sizes and flags parsed, 0/false when unparsable); root iff mounted at "/" or, in a container, at "/rootfs" |
| Disk.PopulateDeviceUdevInfo | pkg/util/sys/disk.go:196-230 | a failed udev query leaves the device unchanged and returns the error; otherwise the nine udev fields are taken when present and nothing else changes |
| Disk.Enriched | pkg/util/sys/disk.go:98-116 | only whole disks change: children iff the listing shows more than one line, the partitions of a non-empty successful query, the class of the disk; nothing else |
| Disk.SupportedDeviceTypes | pkg/util/sys/disk.go:32-40 | a type is supported iff it is one of "disk", "ssd", "crypt", "lvm", "mpath", "part", "linear" |
| Disk.GetDeviceEmptyCases | pkg/util/sys/disk.go:43-45 | a device is empty iff it has no parent, no partitions and no filesystem and its type is one of the seven supported ones; a parent, a partition or a filesystem each rule emptiness out |
| Disk.DiscoveredDeviceFacts | pkg/util/sys/disk.go:75-119 | a record yields a device iff it is not rbd and has a supported TYPE; type, parent, real path and root come from lsblk; empty iff no parent, partitions or filesystem; only disks have a class |
| Disk.GroupByName | pkg/util/sys/disk.go:60-68 | the scanner loop computes Grouped of the lines |
| Disk.GroupedKeys | pkg/util/sys/disk.go:62-67 | a name is a key iff some non-empty record carries it as NAME, and its record names it |
| Disk.GroupedLastWins | pkg/util/sys/disk.go:66 | a name keeps its last record |
| Disk.DiscoverOne | pkg/util/sys/disk.go:76-117 | one iteration of the device loop computes DiscoveredDevice |
| Disk.EnrichDisk | pkg/util/sys/disk.go:98-116 | computes the disk enrichment from the two queries |
| Disk.DiscoverEach | pkg/util/sys/disk.go:73-120 | the loop over the grouped records computes the map of discovered devices, whatever the iteration order |
| Disk.WalkUp | pkg/util/sys/disk.go:122-125 | the inner walk marks exactly the parent chain of the starting device as root |
| Disk.VisitDevice | pkg/util/sys/disk.go:121-126 | visiting one more device keeps the map equal to the devices with every chain from a visited root marked |
| Disk.PropagateRoots | pkg/util/sys/disk.go:121-126 | when every root's chain ends within the map, the walk yields the root closure |
| Disk.RootClosureParentClosed | pkg/util/sys/disk.go:122-124 | in the result, the parent of a root device is a device and is root |
| Disk.RootClosureLeast | pkg/util/sys/disk.go:121-126 | every root device of the result lies in any parent-closed set holding the original roots |
| Disk.NothingWalked | pkg/util/sys/disk.go:121 | with nothing visited the map is unchanged |
| Disk.DiscoverDevices | pkg/util/sys/disk.go:52-133 | computes Discover: the lsblk error, the scanner's token-too-long error when a line reaches 64 KiB, the root closure of the found devices, or the crash of the walk |
| Disk.DiscoverFails | pkg/util/sys/disk.go:53-71 | discovery fails iff the lsblk call fails, with that call's error, or a line of its output is too long for bufio.Scanner, with the wrapped "failed to scan through lsblk" error |
| Disk.DiscoveredKeys | pkg/util/sys/disk.go:75-119 | the keys are exactly the NAMEs of supported non-rbd records, each device's real path and name is its key |
| Settings.ParseSettings | pkg/server/settings.go:28-48 | the decode error is returned; no fio_settings without use_all_disks is a nil dereference; no file names without use_all_disks, or use_all_disks without fio_settings, is an error; accepted settings have fio_settings and a target |
| Settings.ParsedSettingsDefaults | pkg/server/settings.go:44-47 | accepted settings keep every field except that a non-positive worker count becomes 1 |
| Settings.ParseSettingsMessages | pkg/server/settings.go:38-43 | the two rejections carry their exact messages |
| Client.JobArgs | pkg/daemon/client/fio.go:20-35 | the job half of fio's command line, including "libaio" when the engine is empty |
| Client.RunArgs | pkg/daemon/client/fio.go:24-40 | the run half of the command line: direct as 1/0, iodepth, runtime with "s", JSON output |
| Client.FioArgs | pkg/daemon/client/fio.go:28-43 | 22 arguments, plus "--verify 0" when verify is off |
| Client.FioTest | pkg/daemon/client/fio.go:19-58 | a dry run yields no result and no error; otherwise fio's error or the decoded trimmed output |
| Client.DryRunIgnoresExecutor | pkg/daemon/client/fio.go:44-47 | a dry run depends on neither the executor nor the decoder |
| Client.JobsWithKey | pkg/daemon/client/fio.go:408-409 | a bucket holds only jobs with its key |
| Client.BucketsAreFilters | pkg/daemon/client/fio.go:392-411 | a key has a bucket iff some job carries it, and the bucket is that key's jobs in order |
| Client.AddJobs | pkg/daemon/client/fio.go:393-410 | the inner loop extends the buckets of the jobs seen with the new jobs |
| Client.BucketJobs | pkg/daemon/client/fio.go:391-411 | the nested loop computes the buckets of all jobs of all results |
| Client.InsertNext | pkg/daemon/client/fio.go:413 | one insertion step: the prefix through i is sorted and the contents are a permutation |
| Client.SortNumJobs | pkg/daemon/client/fio.go:413 | the array ends sorted ascending and is a permutation of its old contents |
| Client.SortedUnique | pkg/daemon/client/fio.go:413 | the sorted order is unique, so any sort gives the same array |
| Client.ChartFileName | pkg/daemon/client/fio.go:499-503 | a chart name always ends in "html"; an empty name becomes exactly "chart-<uuid>.html"; a name ending in "html" is kept; any other name becomes exactly the name + ".html" |
| Client.ChartFileNameIdempotent | pkg/daemon/client/fio.go:499-503 | naming an already named chart file changes nothing |
| Client.RenderCharts | pkg/daemon/client/fio.go:390-513 | the buckets of all jobs, numJobs sorted in place as a permutation, the named file and the error of writing it |
| WorkItems.RwItems | pkg/server/work_item.go:55-68 | one item per rw value, in order |
| WorkItems.DepthItems | pkg/server/work_item.go:54-69 | one item per iodepth and rw value: len(depths) × len(rw) items |
| WorkItems.SizeItems | pkg/server/work_item.go:53-70 | len(sizes) × len(iodepth) × len(rw) items |
| WorkItems.JobItems | pkg/server/work_item.go:52-71 | len(jobs) × len(bs) × len(iodepth) × len(rw) items |
| WorkItems.MatrixLength | pkg/server/work_item.go:51-71 | the matrix has the product of the four list lengths as its size, and is empty iff one of them is empty |
| WorkItems.JobItemsMembers | pkg/server/work_item.go:52-71 | an item is in the job level iff its numjobs is listed and it is in that numjobs' size level |
| WorkItems.MatrixMembers | pkg/server/work_item.go:56-66 | the matrix holds exactly the items for the target whose four dimensions come from the lists and whose other fields are the settings' |
| WorkItems.RwItemsAt | pkg/server/work_item.go:55-68 | the d-th item of the rw loop is the item for the d-th rw pattern |
| WorkItems.DepthItemsAt | pkg/server/work_item.go:54-69 | position c × len(rw) + d of the iodepth loop is the item for the c-th iodepth and the d-th rw |
| WorkItems.SizeItemsAt | pkg/server/work_item.go:53-70 | position b × len(iodepth) × len(rw) + i of the bs loop is position i of the iodepth loop for the b-th block size |
| WorkItems.JobItemsAt | pkg/server/work_item.go:52-71 | position a × len(bs) × len(iodepth) × len(rw) + i of the numjobs loop is position i of the bs loop for the a-th numjobs |
| WorkItems.MatrixAt | pkg/server/work_item.go:51-71 | the matrix is in nested-loop order: at the row-major position ((a × B + b) × D + c) × R + d stands the item for the a-th numjobs, b-th bs, c-th iodepth and d-th rw |
| WorkItems.AppendRw | pkg/server/work_item.go:55-68 | the rw loop appends RwItems |
| WorkItems.AppendDepths | pkg/server/work_item.go:54-69 | the iodepth loop appends DepthItems |
| WorkItems.AppendSizes | pkg/server/work_item.go:53-70 | the bs loop appends SizeItems |
| WorkItems.BuildItems | pkg/server/work_item.go:51-71 | the four nested loops compute the matrix |
| WorkItems.ExplicitQueueEntries | pkg/server/work_item.go:50-75 | a name is queued iff it is listed and its matrix is non-empty, with its matrix |
| WorkItems.ExplicitQueueContents | pkg/server/work_item.go:50-75 | the same for the settings' file names |
| WorkItems.BuildExplicitQueue | pkg/server/work_item.go:49-75 | the loop over file names computes the explicit queue |
| WorkItems.DeviceQueue | pkg/server/work_item.go:86-117 | a device is queued iff it is a whole, non-USB, non-root, empty disk without children, with its matrix (even an empty one) |
| WorkItems.BuildDeviceQueue | pkg/server/work_item.go:86-117 | the loop over devices computes DeviceQueue |
| WorkItems.DiscoveredRealPaths | pkg/server/work_item.go:100-116 | every discovered device's real path is its key, so the queue is keyed by real path |
| WorkItems.NewWorkQueue | pkg/server/work_item.go:47-119 | computes NewQueue: the named queue if non-empty; else nil without use_all_disks; else the discovery error or the device queue |
| WorkItems.NamedFilesWin | pkg/server/work_item.go:76-78 | with every list given and a file named, the queue is exactly the named files |
| WorkItems.EmptyDimensionGivesNil | pkg/server/work_item.go:72-81 | an empty dimension list without use_all_disks yields (nil, nil) |
| WorkItems.Collect | pkg/server/work_item.go:25-41 | at most one result per item |
| WorkItems.DryRunHasNoResults | pkg/server/work_item.go:25-41 | a dry run collects no result |
| WorkItems.ResultsComeFromRuns | pkg/server/work_item.go:31-38 | every result is the non-nil result of a successful run of an item |
| WorkItems.RunsGiveResults | pkg/server/work_item.go:31-38 | every successful run with a result contributes it |
| WorkItems.CollectOrder | pkg/server/work_item.go:27-38 | the results are the reports of the succeeding runs, taken at a strictly increasing sequence of item positions that holds every position whose run succeeds, so item order is kept |
| WorkItems.Do | pkg/server/work_item.go:25-41 | the loop collects the results of the successful runs in order and never returns an error |
| Server.NumWorkers | pkg/server/fio.go:274-280 | at most 32 and at most the number of targets; the configured count when both allow it; at least 1 when both are positive |
| Server.StartAsWritten | pkg/server/fio.go:266-273 | as written: an error is returned, an empty queue is no work, a nil queue is dereferenced |
| Server.StartOf | pkg/server/fio.go:266-273 | as intended: a nil queue is no work like an empty one |
| Server.NilQueueCrashesAsWritten | pkg/server/fio.go:270 | settings that pass ParseSettings make doWork dereference a nil queue |
| Server.NamedFilesNeverFail | pkg/server/work_item.go:76-81 | without use_all_disks the corrected start is no work or a dispatch, never a failure |
| Server.MergedMembers | pkg/server/fio.go:295-297 | a result is merged iff it comes from the unit of some dispatched target |
| Server.MergedDryRun | pkg/server/fio.go:295 | a dry run merges no results |
| Server.FioServer.constructor | pkg/server/fio.go:98-116 | options stored, no results, empty pool |
| Server.FioServer.TakeToken | pkg/server/fio.go:291 | one token moves from the pool to a running unit; the pool invariant holds |
| Server.FioServer.ReturnToken | pkg/server/fio.go:300 | one token returns to the pool; the pool invariant holds |
| Server.FioServer.RunUnit | pkg/server/fio.go:291-300 | a unit appends its items' results and leaves the pool as it found it |
| Server.FioServer.DispatchOne | pkg/server/fio.go:304-305 | a dispatched target's block of results follows those of earlier targets |
| Server.FioServer.RunQueue | pkg/server/fio.go:274-308 | NumWorkers tokens; every target dispatched exactly once; results are the merge of all units in dispatch order |
| Server.FioServer.DoWork | pkg/server/fio.go:264-311 | no work, the queue error or the crash leave the results unchanged; a nil queue is read as no work, as in the corrected start (see Findings); otherwise every target runs once and its results are merged, on the assumption that every unit has finished when doWork returns (see Left out) |
| Server.FioServer.RenderCharts | pkg/server/fio.go:138-262 | the buckets of the merged results, numJobs sorted in place, the named chart file; a creation error panics |
| Charts.RecordJob | cmd/charts.go:53-96 | the job takes file name, rw, numjobs, runtime, direct, bs, iodepth, ioengine and verify from their columns |
| Charts.RecordNumJobsValue | cmd/charts.go:55-57 | the numjobs value is a 32-bit integer: the value of the (optionally signed) numeral when in range, the bound of its sign when out of range, and 0 for anything that is not a numeral, a lone sign included |
| Charts.DecodeRowsJobs | cmd/charts.go:45-119 | decoding succeeds iff every data record has 21 columns, with one job per record in order; otherwise "Invalid csv format" |
| Charts.DecodeErrorSticks | cmd/charts.go:50-52 | the first malformed record decides the outcome |
| Charts.NumJobsMembers | cmd/charts.go:56-57 | a value is collected iff some well-formed record carries it |
| Charts.DecodeRecords | cmd/charts.go:44-128 | the record loop skips the header, computes DecodeRows, and collects the numjobs values without duplicates |
| Charts.IncreasingUnique | cmd/charts.go:125-129 | two strictly increasing lists with the same members are equal |
| Charts.SortedDistinctIncreasing | cmd/charts.go:125-129 | sorting a duplicate-free list gives a strictly increasing one |
| Charts.Generate | cmd/charts.go:28-135 | a missing CSV name or read error is returned; a malformed record gives its error; otherwise one result holding the jobs, the numjobs strictly increasing with exactly the collected values, their buckets, the chart name and the write error |
| Charts.GeneratedNumJobsDetermined | cmd/charts.go:125-129 | the numjobs list handed to the renderer does not depend on the map's iteration order |

## Left out

- Process start, pipes, the timeout and kill logic of `ExecuteCommandWithTimeout`, and logging in exec.go: these are I/O. The executor is a parameter.
- `DropCaches` (pkg/daemon/client/fio.go): it writes to /proc. Its error is only logged, so a run does not depend on it.
- JSON decoding of fio's report is a `decode` parameter. The YAML decoding and file reading in settings.go are the `decoded` argument of `ParseSettings`. The CSV reading in charts.go is a `read` parameter.
- The chart drawing of both `RenderCharts` functions (the go-echarts series, axes and pages): this is rendering. The error of creating and writing the page is a `writeChart`/`create` parameter.
- The floating-point columns 7-18 of the CSV record in charts.go: the model keeps only the string columns.
- `uuid.NewString()` is a parameter (`uuid`). The environment lookup of `SMD_IN_CONTAINER` is a parameter (`inContainer`).
- Server.FioServer.DoWork: the goroutines, channel, wait group and mutex of doWork are modelled as a sequential dispatcher. Units run one after another in the queue's iteration order. Each unit takes and returns a pool token. The results are appended as one block per target. Go's interleaving of the blocks under the lock is not modelled. The model also assumes that doWork returns only after every unit has finished, which the Go code does not guarantee. The dispatcher goroutine calls `wg.Add(1)` only after it has received a job from the unbuffered channel, slept and taken a worker (fio.go:289-292). So the last send at fio.go:305 can complete before the last unit is counted, and `wg.Wait()` at fio.go:307 can return while that unit is still to run. Its results are then appended after doWork has returned.
- Server.FioServer.RenderCharts: the numjobs list it sorts is passed in as an array, not read through the settings pointer, so the aliasing with the settings is not modelled.
- Client.RenderCharts: the nested four-level job map is flattened to a map keyed by `BucketKey(rw, iodepth, bs, numjobs)`. The Go code creates every intermediate map before appending, so no information is lost.
- The 32-bit width of numjobs and iodepth (`int32`) in the work items and settings is modelled as `int`. The values come from YAML unchanged and are only formatted.
- `printResults`, `printTable`, `Render3DCharts`, `FioVersion` and the command-line wiring: these are output and flags, outside the core.
- Disk.PropagateRoots: Go dereferences nil when a chain reaches a parent that is not a key, and loops forever on a parent cycle. The model reports both as `WalkCrashes` and does not walk such a map.
- `disk_test.go` expects a device with several lsblk records to gather every parent. The code keeps the last record per NAME and a single `Parent`, and the model follows the code.
- Disk.Enriched: the device class is computed from the disk before its children and partitions are set. That gives the same value, because the class reads only `rotational` and `realPath`, and the enrichment leaves both unchanged.
- Strings.Quote: Go's `%q` escapes quotes, backslashes and non-printable characters inside the string. The model only wraps the string in double quotes, so error messages that quote such strings (for instance the dmsetup output at device.go:272) differ from Go's in those characters.
- Exec.ErrorText: for an `*exec.ExitError`, Go's text is "exit status N" only for a process that exited. A process killed by a signal gives "signal: killed" and the like. The model has no signal case and always gives "exit status N".
- Disk.ScanTooLong: line lengths are counted in characters, where Go's scanner counts bytes. The two agree on lsblk's ASCII output.
- Charts.Generate: `read` stands for `csv.Reader.ReadAll` and is left unconstrained. With its default `FieldsPerRecord` of 0, ReadAll itself fails when a record has a different number of fields from the first one. So in Go the "Invalid csv format" branch is reached only when every record, header included, has a field count other than 21. The model lets `read` return records of mixed widths, and the quoting and multi-line rules of CSV are not modelled.
- Settings.ParseSettings: a missing `fio_settings` without `use_all_disks` is the nil dereference at settings.go:38 (`NilSettingsPanic`), as written.
- Charts.DecodeRecords: Go collects the numjobs values in a map and enumerates it in an unspecified order. The model keeps them in order of first appearance, and Charts.GeneratedNumJobsDetermined shows that the sorted list is the same for every order.

## Findings

| source | as written | input that shows it | evidently intended | confidence | as-written member | corrected member |
|---|---|---|---|---|---|---|
| pkg/server/work_item.go:79-81 with pkg/server/fio.go:270 | NewWorkQueue returns a nil queue and no error when no file yields items and use_all_disks is off; doWork then reads `workQueue.Queue` on the nil pointer | settings with filename ["/dev/sdb"], numjobs [] and use_all_disks false pass ParseSettings | a nil queue means there is no work, like an empty one | not executed | Server.StartAsWritten, Server.NilQueueCrashesAsWritten | Server.StartOf, Server.NamedFilesNeverFail (used by Server.FioServer.DoWork) |
