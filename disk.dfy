/** Device discovery (pkg/util/sys/disk.go): classifying lsblk records, turning
    them into devices, grouping them by name, and marking every device on the
    parent chain of the root filesystem's device as root. */
module Disk {
  import opened Wrappers
  import opened Strings
  import opened Exec
  import opened Device

  // ---------------------------------------------------------------------------
  // Classifiers

  /** supportedDeviceType: one of the seven device types discovery keeps. */
  predicate SupportedDeviceType(t: string)
  {
    t == DiskType || t == SSDType || t == CryptType || t == LVMType
    || t == MultiPath || t == PartType || t == LinearType
  }

  /** GetDeviceEmpty: no parent, a supported type, no partitions, no filesystem. */
  predicate GetDeviceEmpty(d: LocalDevice)
  {
    d.parent == "" && SupportedDeviceType(d.deviceType) && |d.partitions| == 0 && d.filesystem == ""
  }

  /** The seven supported types, written out as lsblk reports them. */
  lemma SupportedDeviceTypes(t: string)
    ensures SupportedDeviceType(t) <==> t in {"disk", "ssd", "crypt", "lvm", "mpath", "part", "linear"}
  {
  }

  /** A device is empty exactly when it is a whole device of a supported type
      with neither partitions nor a filesystem; a parent, a partition or a
      filesystem each make it non-empty, whatever its type. */
  lemma GetDeviceEmptyCases(d: LocalDevice)
    ensures GetDeviceEmpty(d) <==>
              d.parent == "" && d.partitions == [] && d.filesystem == ""
              && d.deviceType in {"disk", "ssd", "crypt", "lvm", "mpath", "part", "linear"}
    ensures d.parent != "" || d.partitions != [] || d.filesystem != "" ==> !GetDeviceEmpty(d)
  {
    SupportedDeviceTypes(d.deviceType);
  }

  /** Length of the leading run of decimal digits. */
  function DigitSpan(s: string): (k: nat)
    ensures k <= |s| && AllDigits(s[..k]) && (k == |s| || !IsDigit(s[k]))
  {
    if s != [] && IsDigit(s[0]) then
      var k := DigitSpan(s[1..]);
      assert forall i :: 1 <= i < k + 1 ==> s[i] == s[1..][i - 1];
      k + 1
    else 0
  }

  /** The whole of `s` matches `rbd[0-9]+p?[0-9]*`. */
  predicate RbdName(s: string)
  {
    HasPrefix(s, "rbd")
    && var t := s[3..];
       var k := DigitSpan(t);
       k >= 1 && (k == |t| || (t[k] == 'p' && AllDigits(t[k + 1..])))
  }

  /** ignoreDevice: the name matches `^(?:/dev/)?rbd[0-9]+p?[0-9]{0,}$`. */
  predicate IgnoreDevice(d: string)
  {
    RbdName(d) || (HasPrefix(d, "/dev/") && RbdName(d[5..]))
  }

  lemma DigitSpanOfDigits(n: string, rest: string)
    requires AllDigits(n) && (rest == [] || !IsDigit(rest[0]))
    ensures DigitSpan(n + rest) == |n|
    decreases |n|
  {
    if n != [] {
      assert (n + rest)[1..] == n[1..] + rest;
      DigitSpanOfDigits(n[1..], rest);
    } else {
      assert n + rest == rest;
    }
  }

  /** The part after the optional "/dev/" matches when it has the pattern's shape. */
  lemma RbdNameOfShape(n1: string, p: string, n2: string)
    requires |n1| >= 1 && AllDigits(n1) && (p == "" || p == "p") && AllDigits(n2)
    ensures RbdName("rbd" + n1 + p + n2)
  {
    var s := "rbd" + n1 + p + n2;
    var t := n1 + p + n2;
    assert s[..3] == "rbd";
    assert s[3..] == t;
    if p == "" {
      assert AllDigits(n1 + n2);
      DigitSpanOfDigits(n1 + n2, []);
      assert t == (n1 + n2) + [];
    } else {
      DigitSpanOfDigits(n1, p + n2);
      assert t == n1 + (p + n2);
      assert t[|n1| + 1..] == n2;
    }
  }

  /** Every name of the pattern's shape is ignored: an optional "/dev/", "rbd",
      one or more digits, an optional "p", and digits. */
  lemma RbdNamesIgnored(prefix: string, n1: string, p: string, n2: string)
    requires prefix == "" || prefix == "/dev/"
    requires |n1| >= 1 && AllDigits(n1) && (p == "" || p == "p") && AllDigits(n2)
    ensures IgnoreDevice(prefix + "rbd" + n1 + p + n2)
  {
    var s := "rbd" + n1 + p + n2;
    RbdNameOfShape(n1, p, n2);
    var d := prefix + "rbd" + n1 + p + n2;
    assert d == prefix + s;
    if prefix == "/dev/" {
      assert d[..5] == "/dev/";
      assert d[5..] == s;
    } else {
      assert d == s;
    }
  }

  lemma RbdNameShape(s: string) returns (n1: string, p: string, n2: string)
    requires RbdName(s)
    ensures |n1| >= 1 && AllDigits(n1) && (p == "" || p == "p") && AllDigits(n2)
    ensures s == "rbd" + n1 + p + n2
  {
    var t := s[3..];
    var k := DigitSpan(t);
    n1 := t[..k];
    if k == |t| {
      p, n2 := "", "";
      assert t == n1 + p + n2;
    } else {
      p, n2 := "p", t[k + 1..];
      assert t == n1 + p + n2;
    }
    assert s == s[..3] + t;
  }

  /** Conversely, every ignored name has that shape. */
  lemma IgnoredNamesAreRbd(d: string) returns (prefix: string, n1: string, p: string, n2: string)
    requires IgnoreDevice(d)
    ensures prefix == "" || prefix == "/dev/"
    ensures |n1| >= 1 && AllDigits(n1) && (p == "" || p == "p") && AllDigits(n2)
    ensures d == prefix + "rbd" + n1 + p + n2
  {
    if RbdName(d) {
      prefix := "";
      n1, p, n2 := RbdNameShape(d);
    } else {
      prefix := "/dev/";
      n1, p, n2 := RbdNameShape(d[5..]);
      assert d == d[..5] + d[5..];
    }
  }

  /** A name without "rbd" in it is never ignored. */
  lemma NonRbdNamesKept(d: string)
    requires !Contains(d, "rbd")
    ensures !IgnoreDevice(d)
  {
    if IgnoreDevice(d) {
      var prefix, n1, p, n2 := IgnoredNamesAreRbd(d);
      assert d == prefix + "rbd" + (n1 + p + n2);
      RbdAfterPrefix(prefix, n1 + p + n2);
    }
  }

  lemma RbdAfterPrefix(prefix: string, rest: string)
    ensures Contains(prefix + "rbd" + rest, "rbd")
  {
    var d := prefix + "rbd" + rest;
    assert d[|prefix|..|prefix| + 3] == "rbd";
    ContainsAt(d, "rbd", |prefix|);
  }

  // ---------------------------------------------------------------------------
  // lsblk record -> device

  /** PopulateDeviceInfo: a device from one lsblk record. It fails on a missing
      record, a missing TYPE or an unsupported TYPE. `inContainer` is whether
      SMD_IN_CONTAINER is "true". */
  function PopulateDeviceInfo(diskProps: Option<map<string, string>>, inContainer: bool): (r: Result<LocalDevice, GoError>)
    ensures r.Ok? <==> diskProps.Some? && "TYPE" in diskProps.value && SupportedDeviceType(diskProps.value["TYPE"])
    ensures r.Ok? ==>
      var props := diskProps.value;
      var d := r.value;
      d.name == Lookup(props, "NAME") && d.realPath == Lookup(props, "NAME")
      && d.deviceType == props["TYPE"]
      && d.mountPoint == Lookup(props, "MOUNTPOINT")
      && (d.isRoot <==> Lookup(props, "MOUNTPOINT") == SystemRootPath
                        || (inContainer && Lookup(props, "MOUNTPOINT") == SystemRootfsPath))
      && d.parent == Lookup(props, "PKNAME")
      && d.size == ParseUint64(Lookup(props, "SIZE")).GetOr(0)
      && d.rotational == ParseBool(Lookup(props, "ROTA")).GetOr(false)
      && d.readonly == ParseBool(Lookup(props, "RO")).GetOr(false)
      && d.uuid == Lookup(props, "UUID") && d.kernelName == Lookup(props, "KNAME")
      && d.partitions == [] && d.filesystem == "" && !d.hasChildren && d.deviceClass == "" && d.bus == ""
  {
    match diskProps
    case None => Err(OtherError("disk properties is empty"))
    case Some(props) =>
      if "TYPE" !in props then Err(OtherError("diskType is empty"))
      else if !SupportedDeviceType(props["TYPE"]) then Err(OtherError("unsupported diskType " + props["TYPE"]))
      else
        var mountPoint := Lookup(props, "MOUNTPOINT");
        Ok(LocalDevice(
          name := Lookup(props, "NAME"),
          uuid := Lookup(props, "UUID"),
          mountPoint := mountPoint,
          isRoot := mountPoint == SystemRootPath || (inContainer && mountPoint == SystemRootfsPath),
          deviceType := props["TYPE"],
          size := ParseUint64(Lookup(props, "SIZE")).GetOr(0),
          rotational := ParseBool(Lookup(props, "ROTA")).GetOr(false),
          readonly := ParseBool(Lookup(props, "RO")).GetOr(false),
          parent := Lookup(props, "PKNAME"),
          realPath := Lookup(props, "NAME"),
          kernelName := Lookup(props, "KNAME")))
  }

  /** The udev value of `key` when present, the current field otherwise. */
  function UdevOr(info: map<string, string>, key: string, current: string): string
  {
    if key in info then info[key] else current
  }

  /** The fixed udev key -> device field table. */
  predicate UdevFieldsFrom(info: map<string, string>, before: LocalDevice, after: LocalDevice)
  {
    after.devLinks == UdevOr(info, "DEVLINKS", before.devLinks)
    && after.filesystem == UdevOr(info, "ID_FS_TYPE", before.filesystem)
    && after.serial == UdevOr(info, "ID_SERIAL", before.serial)
    && after.bus == UdevOr(info, "ID_BUS", before.bus)
    && after.vendor == UdevOr(info, "ID_VENDOR", before.vendor)
    && after.model == UdevOr(info, "ID_MODEL", before.model)
    && after.wwnVendorExtension == UdevOr(info, "ID_WWN_WITH_EXTENSION", before.wwnVendorExtension)
    && after.wwn == UdevOr(info, "ID_WWN", before.wwn)
    && after.pathID == UdevOr(info, "ID_PATH", before.pathID)
  }

  /** PopulateDeviceUdevInfo: on a failed udev query the device comes back
      unchanged with the error; otherwise the fields of the key table take the
      udev values that are present, and no other field changes. */
  function PopulateDeviceUdevInfo(exec: Executor, device: string, disk: LocalDevice): (r: (LocalDevice, Option<GoError>))
    ensures GetUdevInfo(exec, device).Err? ==> r == (disk, Some(GetUdevInfo(exec, device).error))
    ensures GetUdevInfo(exec, device).Ok? ==> r.1.None? && UdevFieldsFrom(GetUdevInfo(exec, device).value, disk, r.0)
    ensures r.0.(devLinks := disk.devLinks, filesystem := disk.filesystem, serial := disk.serial, bus := disk.bus,
                 vendor := disk.vendor, model := disk.model, wwnVendorExtension := disk.wwnVendorExtension,
                 wwn := disk.wwn, pathID := disk.pathID) == disk
  {
    match GetUdevInfo(exec, device)
    case Err(e) => (disk, Some(e))
    case Ok(info) =>
      (disk.(devLinks := UdevOr(info, "DEVLINKS", disk.devLinks),
             filesystem := UdevOr(info, "ID_FS_TYPE", disk.filesystem),
             serial := UdevOr(info, "ID_SERIAL", disk.serial),
             bus := UdevOr(info, "ID_BUS", disk.bus),
             vendor := UdevOr(info, "ID_VENDOR", disk.vendor),
             model := UdevOr(info, "ID_MODEL", disk.model),
             wwnVendorExtension := UdevOr(info, "ID_WWN_WITH_EXTENSION", disk.wwnVendorExtension),
             wwn := UdevOr(info, "ID_WWN", disk.wwn),
             pathID := UdevOr(info, "ID_PATH", disk.pathID)), None)
  }

  /** The enrichment only whole disks get, from the child listing and the
      partition query: a disk gains children when the listing shows more than
      itself, takes the partitions of a successful non-empty query (a failed
      query counts as none), and gets the class of the result; nothing else
      changes. */
  function Enriched(children: seq<string>, parts: Result<PartitionInfo, GoError>, disk: LocalDevice): (d: LocalDevice)
    ensures disk.deviceType != DiskType ==> d == disk
    ensures disk.deviceType == DiskType ==>
      d == disk.(hasChildren := d.hasChildren, partitions := d.partitions, deviceClass := d.deviceClass)
      && d.hasChildren == (disk.hasChildren || |children| > 1)
      && d.deviceClass == GetDiskDeviceClass(d)
      && (parts.Ok? && |parts.value.partitions| > 0 ==> d.partitions == parts.value.partitions)
      && ((parts.Ok? && |parts.value.partitions| == 0) || parts.Err? ==> d.partitions == disk.partitions)
  {
    if disk.deviceType != DiskType then disk
    else
      var found := match parts case Ok(info) => info.partitions case Err(_) => [];
      disk.(hasChildren := disk.hasChildren || |children| > 1,
            partitions := if |found| > 0 then found else disk.partitions,
            deviceClass := GetDiskDeviceClass(disk))
  }

  /** The enrichment of the disk `name` with what the executor reports. */
  function DiskEnrichment(exec: Executor, name: string, disk: LocalDevice): LocalDevice
  {
    Enriched(ListDevicesChild(exec, name).0, DevicePartitions(exec, name), disk)
  }

  /** The device the discovery loop records for one grouped record, or None
      when the loop skips it. */
  function DiscoveredDevice(exec: Executor, inContainer: bool, name: string, props: map<string, string>): Option<LocalDevice>
  {
    if IgnoreDevice(name) then None
    else
      match PopulateDeviceInfo(Some(props), inContainer)
      case Err(_) => None
      case Ok(disk) =>
        var withUdev := PopulateDeviceUdevInfo(exec, name, disk).0;
        var enriched := DiskEnrichment(exec, name, withUdev);
        Some(enriched.(empty := GetDeviceEmpty(enriched)))
  }

  /** What discovery keeps of one record: only supported, non-rbd records
      survive, with their type, parent, real path and root flag from lsblk,
      emptiness computed last, and a device class only on whole disks. */
  lemma DiscoveredDeviceFacts(exec: Executor, inContainer: bool, name: string, props: map<string, string>)
    ensures DiscoveredDevice(exec, inContainer, name, props).Some?
      <==> !IgnoreDevice(name) && "TYPE" in props && SupportedDeviceType(props["TYPE"])
    ensures DiscoveredDevice(exec, inContainer, name, props).Some? ==>
      var d := DiscoveredDevice(exec, inContainer, name, props).value;
      d.deviceType == props["TYPE"] && SupportedDeviceType(d.deviceType)
      && d.parent == Lookup(props, "PKNAME")
      && d.realPath == Lookup(props, "NAME")
      && (d.isRoot <==> Lookup(props, "MOUNTPOINT") == SystemRootPath
                        || (inContainer && Lookup(props, "MOUNTPOINT") == SystemRootfsPath))
      && (d.empty <==> d.parent == "" && |d.partitions| == 0 && d.filesystem == "")
      && (d.deviceType != DiskType ==> d.deviceClass == "" && !d.hasChildren && d.partitions == [])
      && (d.deviceType == DiskType ==> d.deviceClass in {"hdd", "nvme", "ssd"})
  {
  }

  // ---------------------------------------------------------------------------
  // Grouping lsblk lines by NAME

  /** bufio.Scanner's lines: split at '\n', a trailing '\r' dropped from each
      line, and no empty line after a final '\n'. */
  function ScannerLines(s: string): seq<string>
  {
    var pieces := Split(s, '\n');
    var lines := if pieces[|pieces| - 1] == [] then pieces[..|pieces| - 1] else pieces;
    DropCRs(lines)
  }

  /** bufio.MaxScanTokenSize, the largest buffer a default Scanner grows to. */
  const MaxScanTokenSize: nat := 64 * 1024

  /** A default Scanner fails with ErrTooLong when some line, without its
      '\n', fills the whole buffer: the line cannot be completed. */
  predicate ScanTooLong(s: string)
  {
    exists line :: line in Split(s, '\n') && |line| >= MaxScanTokenSize
  }

  /** The wrapped ErrTooLong DiscoverDevices returns. */
  const ScanFailure: GoError := OtherError("failed to scan through lsblk: bufio.Scanner: token too long")

  function DropCRs(lines: seq<string>): (r: seq<string>)
    ensures |r| == |lines|
  {
    if lines == [] then []
    else
      var line := lines[0];
      [if line != [] && line[|line| - 1] == '\r' then line[..|line| - 1] else line] + DropCRs(lines[1..])
  }

  /** A record that is non-empty and names `k`. */
  predicate NamesKey(props: map<string, string>, k: string)
  {
    |props| > 0 && Lookup(props, "NAME") == k
  }

  /** A line whose record is non-empty and names `k`. */
  predicate RecordNames(line: string, k: string)
  {
    NamesKey(LineProps(line), k)
  }

  /** The parsed record of every line. */
  function Records(lines: seq<string>): (r: seq<map<string, string>>)
    ensures |r| == |lines| && forall j :: 0 <= j < |lines| ==> r[j] == LineProps(lines[j])
  {
    seq(|lines|, j requires 0 <= j < |lines| => LineProps(lines[j]))
  }

  /** Records grouped by NAME, one after the other. */
  function GroupedRecords(records: seq<map<string, string>>): map<string, map<string, string>>
  {
    if records == [] then map[]
    else
      var n := |records| - 1;
      StoreRecord(GroupedRecords(records[..n]), records[n])
  }

  /** The records of the lines grouped by NAME. */
  function Grouped(lines: seq<string>): map<string, map<string, string>>
  {
    GroupedRecords(Records(lines))
  }

  /** The first loop of DiscoverDevices: each non-empty record is stored under
      its NAME, replacing any earlier record with that NAME. */
  method GroupByName(lines: seq<string>) returns (deviceProps: map<string, map<string, string>>)
    ensures deviceProps == Grouped(lines)
  {
    ghost var records := Records(lines);
    deviceProps := map[];
    for i := 0 to |lines|
      invariant deviceProps == GroupedRecords(records[..i])
    {
      var props := ParseKeyValuePairString(lines[i]);
      deviceProps := StoreRecord(deviceProps, props);
      GroupedRecordsStep(records, i);
    }
    assert records[..|lines|] == records;
  }

  /** The body of the grouping loop: a non-empty record is stored under its
      NAME. */
  function StoreRecord(deviceProps: map<string, map<string, string>>, props: map<string, string>)
    : map<string, map<string, string>>
  {
    if |props| > 0 then deviceProps[Lookup(props, "NAME") := props] else deviceProps
  }

  /** Grouping one more record stores it under its NAME unless it is empty. */
  lemma GroupedRecordsStep(records: seq<map<string, string>>, i: nat)
    requires i < |records|
    ensures GroupedRecords(records[..i + 1]) == StoreRecord(GroupedRecords(records[..i]), records[i])
  {
    assert records[..i + 1][..i] == records[..i];
  }

  /** A key is present iff some record names it, and the record stored under
      it names it. */
  lemma {:induction false} GroupedRecordsKeys(records: seq<map<string, string>>, k: string)
    ensures k in GroupedRecords(records) <==> exists j :: 0 <= j < |records| && NamesKey(records[j], k)
    ensures k in GroupedRecords(records) ==> NamesKey(GroupedRecords(records)[k], k)
  {
    if records != [] {
      var n := |records| - 1;
      var prefix := records[..n];
      GroupedRecordsKeys(prefix, k);
      if NamesKey(records[n], k) {
        assert k in GroupedRecords(records) && GroupedRecords(records)[k] == records[n];
      } else {
        if k in GroupedRecords(prefix) {
          var j :| 0 <= j < n && NamesKey(prefix[j], k);
          assert prefix[j] == records[j];
        }
        if exists j :: 0 <= j < |records| && NamesKey(records[j], k) {
          var j :| 0 <= j < |records| && NamesKey(records[j], k);
          assert prefix[j] == records[j];
        }
      }
    }
  }

  /** Grouping keys are NAMEs: a key is present iff some non-empty record names
      it, and every record is stored under its own NAME. */
  lemma GroupedKeys(lines: seq<string>, k: string)
    ensures k in Grouped(lines) <==> exists j :: 0 <= j < |lines| && RecordNames(lines[j], k)
    ensures k in Grouped(lines) ==> |Grouped(lines)[k]| > 0 && Lookup(Grouped(lines)[k], "NAME") == k
  {
    var records := Records(lines);
    GroupedRecordsKeys(records, k);
    if k in Grouped(lines) {
      var j :| 0 <= j < |records| && NamesKey(records[j], k);
      assert RecordNames(lines[j], k);
    }
  }

  /** The last record naming `k` replaces all earlier ones entirely. */
  lemma {:induction false} GroupedRecordsLastWins(records: seq<map<string, string>>, k: string, j: nat)
    requires j < |records| && NamesKey(records[j], k)
    requires forall l :: j < l < |records| ==> !NamesKey(records[l], k)
    ensures k in GroupedRecords(records) && GroupedRecords(records)[k] == records[j]
  {
    var n := |records| - 1;
    if j < n {
      var prefix := records[..n];
      assert forall l :: j < l < n ==> prefix[l] == records[l];
      GroupedRecordsLastWins(prefix, k, j);
    }
  }

  /** The last line with a given NAME replaces all earlier ones entirely. */
  lemma GroupedLastWins(lines: seq<string>, k: string, j: nat)
    requires j < |lines| && RecordNames(lines[j], k)
    requires forall l :: j < l < |lines| ==> !RecordNames(lines[l], k)
    ensures k in Grouped(lines) && Grouped(lines)[k] == LineProps(lines[j])
  {
    GroupedRecordsLastWins(Records(lines), k, j);
  }

  // ---------------------------------------------------------------------------
  // The per-device loop

  /** The device the loop records for each name, None for names it skips or
      that have no record. */
  function Discoverer(exec: Executor, inContainer: bool, deviceProps: map<string, map<string, string>>)
    : string -> Option<LocalDevice>
  {
    name => if name in deviceProps then DiscoveredDevice(exec, inContainer, name, deviceProps[name]) else None
  }

  /** The devices `found` yields for `names`. */
  function Recorded(found: string -> Option<LocalDevice>, names: set<string>): map<string, LocalDevice>
  {
    map name | name in names && found(name).Some? :: found(name).value
  }

  /** The devices recorded for the names in `done`. */
  function DiscoveredMap(exec: Executor, inContainer: bool, deviceProps: map<string, map<string, string>>, done: set<string>)
    : map<string, LocalDevice>
  {
    Recorded(Discoverer(exec, inContainer, deviceProps), done)
  }

  /** The body of the second loop of DiscoverDevices for one name. */
  method DiscoverOne(exec: Executor, inContainer: bool, name: string, props: map<string, string>)
    returns (disk: Option<LocalDevice>)
    ensures disk == DiscoveredDevice(exec, inContainer, name, props)
  {
    if IgnoreDevice(name) {
      return None;
    }
    var populated := PopulateDeviceInfo(Some(props), inContainer);
    if populated.Err? {
      return None;
    }
    var d := PopulateDeviceUdevInfo(exec, name, populated.value).0;
    d := EnrichDisk(exec, name, d);
    d := d.(empty := GetDeviceEmpty(d));
    return Some(d);
  }

  /** The disk-only branch of the second loop of DiscoverDevices. */
  method EnrichDisk(exec: Executor, name: string, disk: LocalDevice) returns (d: LocalDevice)
    ensures d == DiskEnrichment(exec, name, disk)
  {
    d := disk;
    if d.deviceType == DiskType {
      var deviceChild := ListDevicesChild(exec, name).0;
      var hasChildren := d.hasChildren || |deviceChild| > 1;
      var partitions := GetDevicePartitions(exec, name);
      var found := if partitions.Ok? && |partitions.value.partitions| > 0 then partitions.value.partitions else d.partitions;
      d := d.(hasChildren := hasChildren, partitions := found, deviceClass := GetDiskDeviceClass(d));
    }
  }

  /** The second loop of DiscoverDevices, over the grouped names in any order. */
  method DiscoverEach(exec: Executor, inContainer: bool, deviceProps: map<string, map<string, string>>)
    returns (disks: map<string, LocalDevice>)
    ensures disks == DiscoveredMap(exec, inContainer, deviceProps, deviceProps.Keys)
  {
    disks := map[];
    var todo := deviceProps.Keys;
    assert deviceProps.Keys - todo == {};
    assert DiscoveredMap(exec, inContainer, deviceProps, {}).Keys == {};
    while todo != {}
      invariant todo <= deviceProps.Keys
      invariant disks == DiscoveredMap(exec, inContainer, deviceProps, deviceProps.Keys - todo)
      decreases |todo|
    {
      var name :| name in todo;
      ghost var done := deviceProps.Keys - todo;
      todo := todo - {name};
      assert deviceProps.Keys - todo == done + {name};
      var disk := DiscoverOne(exec, inContainer, name, deviceProps[name]);
      RecordedStep(Discoverer(exec, inContainer, deviceProps), done, name);
      if disk.Some? {
        disks := disks[name := disk.value];
      }
    }
    assert deviceProps.Keys - todo == deviceProps.Keys;
  }

  /** Recording one more name adds its device, if it has one, and nothing else. */
  lemma RecordedStep(found: string -> Option<LocalDevice>, done: set<string>, name: string)
    ensures Recorded(found, done + {name})
      == if found(name).Some? then Recorded(found, done)[name := found(name).value] else Recorded(found, done)
  {
    var before := Recorded(found, done);
    var after := Recorded(found, done + {name});
    var expected := if found(name).Some? then before[name := found(name).value] else before;
    assert after.Keys == expected.Keys;
  }

  // ---------------------------------------------------------------------------
  // Root propagation

  /** The device `j` parent-steps above `n`; the walk stays put at a device
      without a parent or at a name that is not a key. */
  function Ancestor(disks: map<string, LocalDevice>, n: string, j: nat): string
    decreases j
  {
    if j == 0 || n !in disks || disks[n].parent == "" then n
    else Ancestor(disks, disks[n].parent, j - 1)
  }

  /** The number of parent steps the walk from `n` takes, at most `fuel`. */
  function ChainLength(disks: map<string, LocalDevice>, n: string, fuel: nat): (len: nat)
    ensures len <= fuel
    decreases fuel
  {
    if fuel == 0 || n !in disks || disks[n].parent == "" then 0
    else 1 + ChainLength(disks, disks[n].parent, fuel - 1)
  }

  /** The walk from `n` reaches, through keys only and within `fuel` steps, a
      device without a parent. */
  predicate ChainEnds(disks: map<string, LocalDevice>, n: string, fuel: nat)
  {
    var top := Ancestor(disks, n, ChainLength(disks, n, fuel));
    top in disks && disks[top].parent == ""
  }

  /** The walk from every directly-root device ends. Otherwise the Go loop at
      disk.go:121-126 dereferences a missing parent or never ends. */
  predicate RootChainsEnd(disks: map<string, LocalDevice>)
  {
    forall r :: r in disks && disks[r].isRoot ==> ChainEnds(disks, r, |disks|)
  }

  /** `k` lies on the walk from a directly-root device in `roots`. */
  ghost predicate ReachedFrom(disks: map<string, LocalDevice>, roots: set<string>, k: string)
  {
    exists r: string, j: nat :: r in roots && r in disks && disks[r].isRoot
      && j <= ChainLength(disks, r, |disks|) && Ancestor(disks, r, j) == k
  }

  /** Root after the walks from the devices in `roots`. */
  ghost predicate Marked(disks: map<string, LocalDevice>, roots: set<string>, k: string)
  {
    (k in disks && disks[k].isRoot) || ReachedFrom(disks, roots, k)
  }

  /** The names that are root after the walks from the devices in `roots`. */
  ghost function MarkedSet(disks: map<string, LocalDevice>, roots: set<string>): set<string>
  {
    set k | k in disks && Marked(disks, roots, k)
  }

  /** The devices with exactly the names in `marked` flagged root. */
  function WithRoots(disks: map<string, LocalDevice>, marked: set<string>): map<string, LocalDevice>
  {
    map k | k in disks :: disks[k].(isRoot := k in marked)
  }

  /** The devices after the walk: a device is root iff it was root already or
      lies on the parent chain of a root device; nothing else changes. */
  ghost function RootClosure(disks: map<string, LocalDevice>): map<string, LocalDevice>
  {
    WithRoots(disks, MarkedSet(disks, disks.Keys))
  }

  /** The names the walk from `d` has marked after `k` steps. */
  ghost function Walked(disks: map<string, LocalDevice>, d: string, k: nat): set<string>
  {
    set i | 0 <= i <= k :: Ancestor(disks, d, i)
  }

  lemma {:induction false} AncestorCompose(disks: map<string, LocalDevice>, n: string, j: nat, i: nat)
    ensures Ancestor(disks, n, j + i) == Ancestor(disks, Ancestor(disks, n, j), i)
    decreases j
  {
    if j > 0 && n in disks && disks[n].parent != "" {
      AncestorCompose(disks, disks[n].parent, j - 1, i);
    } else if j > 0 {
      AncestorStays(disks, n, j + i);
      AncestorStays(disks, n, i);
    }
  }

  lemma {:induction false} AncestorStays(disks: map<string, LocalDevice>, n: string, j: nat)
    requires n !in disks || disks[n].parent == ""
    ensures Ancestor(disks, n, j) == n
  {
  }

  /** Below the chain length, every step is from a key with a parent to that parent. */
  lemma {:induction false} AncestorStep(disks: map<string, LocalDevice>, n: string, i: nat, fuel: nat)
    requires i < ChainLength(disks, n, fuel)
    ensures Ancestor(disks, n, i) in disks && disks[Ancestor(disks, n, i)].parent != ""
    ensures Ancestor(disks, n, i + 1) == disks[Ancestor(disks, n, i)].parent
    decreases i
  {
    if i > 0 {
      AncestorStep(disks, disks[n].parent, i - 1, fuel - 1);
    }
  }

  /** A walk that ends leaves an ending walk from each device on it. */
  lemma {:induction false} ChainShift(disks: map<string, LocalDevice>, n: string, j: nat, fuel: nat)
    requires j <= ChainLength(disks, n, fuel)
    ensures ChainLength(disks, n, fuel) == j + ChainLength(disks, Ancestor(disks, n, j), fuel - j)
    ensures ChainEnds(disks, n, fuel) ==> ChainEnds(disks, Ancestor(disks, n, j), fuel - j)
    decreases j
  {
    if j > 0 {
      ChainShift(disks, disks[n].parent, j - 1, fuel - 1);
    }
  }

  /** More fuel does not change a walk that ends. */
  lemma {:induction false} ChainMoreFuel(disks: map<string, LocalDevice>, n: string, fuel: nat, more: nat)
    requires ChainEnds(disks, n, fuel) && fuel <= more
    ensures ChainLength(disks, n, more) == ChainLength(disks, n, fuel) && ChainEnds(disks, n, more)
    decreases fuel
  {
    if fuel > 0 && n in disks && disks[n].parent != "" {
      ChainMoreFuel(disks, disks[n].parent, fuel - 1, more - 1);
    }
  }

  /** A device reached from a root has an ending walk, and its walk is the
      rest of the root's walk. */
  lemma ReachedChain(disks: map<string, LocalDevice>, r: string, j: nat, i: nat)
    requires r in disks && disks[r].isRoot && RootChainsEnd(disks)
    requires j <= ChainLength(disks, r, |disks|)
    ensures ChainEnds(disks, Ancestor(disks, r, j), |disks|)
    ensures i <= ChainLength(disks, Ancestor(disks, r, j), |disks|) ==>
      j + i <= ChainLength(disks, r, |disks|) && Ancestor(disks, Ancestor(disks, r, j), i) == Ancestor(disks, r, j + i)
  {
    var d := Ancestor(disks, r, j);
    ChainShift(disks, r, j, |disks|);
    ChainMoreFuel(disks, d, |disks| - j, |disks|);
    AncestorCompose(disks, r, j, i);
  }

  lemma WalkedStep(disks: map<string, LocalDevice>, d: string, k: nat)
    ensures Walked(disks, d, k + 1) == Walked(disks, d, k) + {Ancestor(disks, d, k + 1)}
  {
    forall x | x in Walked(disks, d, k + 1)
      ensures x in Walked(disks, d, k) || x == Ancestor(disks, d, k + 1)
    {
      var i :| 0 <= i <= k + 1 && Ancestor(disks, d, i) == x;
      if i <= k {
        assert x in Walked(disks, d, k);
      }
    }
  }

  /** Flagging one more device root in the map is adding its name to the set. */
  lemma WithRootsMark(disks: map<string, LocalDevice>, marked: set<string>, n: string)
    requires n in disks
    ensures WithRoots(disks, marked)[n := WithRoots(disks, marked)[n].(isRoot := true)] == WithRoots(disks, marked + {n})
  {
    var m := WithRoots(disks, marked);
    var updated := m[n := m[n].(isRoot := true)];
    var expected := WithRoots(disks, marked + {n});
    assert updated.Keys == expected.Keys;
    forall x | x in updated
      ensures updated[x] == expected[x]
    {
    }
  }

  /** A device marked root has a walk that ends. */
  lemma MarkedChainEnds(disks: map<string, LocalDevice>, roots: set<string>, d: string)
    requires RootChainsEnd(disks) && d in MarkedSet(disks, roots)
    ensures ChainEnds(disks, d, |disks|)
  {
    if !disks[d].isRoot {
      var r: string, j: nat :| r in roots && r in disks && disks[r].isRoot
        && j <= ChainLength(disks, r, |disks|) && Ancestor(disks, r, j) == d;
      ReachedChain(disks, r, j, 0);
    }
  }

  /** Every device on an ending walk is a key. */
  lemma WalkedKeys(disks: map<string, LocalDevice>, d: string, x: string)
    requires ChainEnds(disks, d, |disks|) && x in Walked(disks, d, ChainLength(disks, d, |disks|))
    ensures x in disks
  {
    var i :| 0 <= i <= ChainLength(disks, d, |disks|) && Ancestor(disks, d, i) == x;
    if i < ChainLength(disks, d, |disks|) {
      AncestorStep(disks, d, i, |disks|);
    }
  }

  /** Walking from a device marked root marks exactly what a walk from it adds. */
  lemma WalkCompletes(disks: map<string, LocalDevice>, roots: set<string>, d: string)
    requires RootChainsEnd(disks) && d in MarkedSet(disks, roots)
    ensures ChainEnds(disks, d, |disks|)
    ensures MarkedSet(disks, roots) + Walked(disks, d, ChainLength(disks, d, |disks|)) == MarkedSet(disks, roots + {d})
  {
    var F := |disks|;
    MarkedChainEnds(disks, roots, d);
    var len := ChainLength(disks, d, F);
    forall x | x in Walked(disks, d, len)
      ensures x in MarkedSet(disks, roots + {d})
    {
      WalkedKeys(disks, d, x);
      var i :| 0 <= i <= len && Ancestor(disks, d, i) == x;
      if disks[d].isRoot {
        assert ReachedFrom(disks, roots + {d}, x);
      } else {
        var r: string, j: nat :| r in roots && r in disks && disks[r].isRoot
          && j <= ChainLength(disks, r, F) && Ancestor(disks, r, j) == d;
        ReachedChain(disks, r, j, i);
        assert ReachedFrom(disks, roots + {d}, x);
      }
    }
    forall x | x in MarkedSet(disks, roots)
      ensures x in MarkedSet(disks, roots + {d})
    {
      if !disks[x].isRoot {
        var r: string, j: nat :| r in roots && r in disks && disks[r].isRoot
          && j <= ChainLength(disks, r, F) && Ancestor(disks, r, j) == x;
        assert ReachedFrom(disks, roots + {d}, x);
      }
    }
    forall x | x in MarkedSet(disks, roots + {d})
      ensures x in MarkedSet(disks, roots) + Walked(disks, d, len)
    {
      if !disks[x].isRoot {
        var r: string, j: nat :| r in roots + {d} && r in disks && disks[r].isRoot
          && j <= ChainLength(disks, r, F) && Ancestor(disks, r, j) == x;
        if r == d {
          assert x in Walked(disks, d, len);
        } else {
          assert ReachedFrom(disks, roots, x);
        }
      }
    }
  }

  /** Visiting a device that is not root marks nothing. */
  lemma VisitUnmarked(disks: map<string, LocalDevice>, roots: set<string>, d: string)
    requires d in disks && d !in MarkedSet(disks, roots)
    ensures MarkedSet(disks, roots + {d}) == MarkedSet(disks, roots)
  {
    forall x | x in MarkedSet(disks, roots + {d})
      ensures x in MarkedSet(disks, roots)
    {
      if !disks[x].isRoot {
        var r: string, j: nat :| r in roots + {d} && r in disks && disks[r].isRoot
          && j <= ChainLength(disks, r, |disks|) && Ancestor(disks, r, j) == x;
        assert r != d;
        assert ReachedFrom(disks, roots, x);
      }
    }
    forall x | x in MarkedSet(disks, roots)
      ensures x in MarkedSet(disks, roots + {d})
    {
      if !disks[x].isRoot {
        var r: string, j: nat :| r in roots && r in disks && disks[r].isRoot
          && j <= ChainLength(disks, r, |disks|) && Ancestor(disks, r, j) == x;
        assert ReachedFrom(disks, roots + {d}, x);
      }
    }
  }

  /** Before any walk, the marked devices are the directly-root ones. */
  lemma NothingWalked(disks: map<string, LocalDevice>)
    ensures WithRoots(disks, MarkedSet(disks, {})) == disks
  {
    var m := WithRoots(disks, MarkedSet(disks, {}));
    assert m.Keys == disks.Keys;
    forall x | x in m
      ensures m[x] == disks[x]
    {
      assert x in MarkedSet(disks, {}) <==> disks[x].isRoot;
    }
  }

  /** The inner loop at disk.go:122-125: from `d`, which is already root,
      climb the parent chain marking each device root. */
  method WalkUp(disks: map<string, LocalDevice>, ghost marked0: set<string>, out0: map<string, LocalDevice>, d: string)
    returns (out: map<string, LocalDevice>)
    requires d in disks && ChainEnds(disks, d, |disks|)
    requires d in marked0 && out0 == WithRoots(disks, marked0)
    ensures out == WithRoots(disks, marked0 + Walked(disks, d, ChainLength(disks, d, |disks|)))
  {
    var F := |disks|;
    out := out0;
    var cur := d;
    ghost var k: nat := 0;
    ghost var marked := marked0;
    WalkedStart(disks, d);
    while out[cur].isRoot && out[cur].parent != ""
      invariant k <= ChainLength(disks, d, F) && cur == Ancestor(disks, d, k) && cur in disks
      invariant cur in marked && marked == marked0 + Walked(disks, d, k)
      invariant out == WithRoots(disks, marked)
      decreases ChainLength(disks, d, F) - k
    {
      ClimbMark(disks, d, k, marked0, marked);
      cur := out[cur].parent;
      out := out[cur := out[cur].(isRoot := true)];
      marked := marked + {cur};
      k := k + 1;
    }
    ClimbDone(disks, d, k);
  }

  /** One step of WalkUp: the parent is the next device of the walk, and
      flagging it root is marking it. */
  lemma ClimbMark(disks: map<string, LocalDevice>, d: string, k: nat, marked0: set<string>, marked: set<string>)
    requires ChainEnds(disks, d, |disks|) && k <= ChainLength(disks, d, |disks|)
    requires Ancestor(disks, d, k) in disks && disks[Ancestor(disks, d, k)].parent != ""
    requires marked == marked0 + Walked(disks, d, k)
    ensures var p := disks[Ancestor(disks, d, k)].parent;
      var out := WithRoots(disks, marked);
      k + 1 <= ChainLength(disks, d, |disks|) && p == Ancestor(disks, d, k + 1) && p in disks
      && marked + {p} == marked0 + Walked(disks, d, k + 1)
      && out[p := out[p].(isRoot := true)] == WithRoots(disks, marked + {p})
  {
    ClimbStep(disks, d, k);
    WithRootsMark(disks, marked, Ancestor(disks, d, k + 1));
  }

  lemma WalkedStart(disks: map<string, LocalDevice>, d: string)
    ensures Walked(disks, d, 0) == {d}
  {
    assert Ancestor(disks, d, 0) == d;
    forall x | x in Walked(disks, d, 0)
      ensures x == d
    {
    }
  }

  /** One more step of an ending walk that has not reached its top. */
  lemma ClimbStep(disks: map<string, LocalDevice>, d: string, k: nat)
    requires ChainEnds(disks, d, |disks|) && k <= ChainLength(disks, d, |disks|)
    requires Ancestor(disks, d, k) in disks && disks[Ancestor(disks, d, k)].parent != ""
    ensures k < ChainLength(disks, d, |disks|)
    ensures Ancestor(disks, d, k + 1) == disks[Ancestor(disks, d, k)].parent && Ancestor(disks, d, k + 1) in disks
    ensures Walked(disks, d, k + 1) == Walked(disks, d, k) + {Ancestor(disks, d, k + 1)}
  {
    var F := |disks|;
    if k == ChainLength(disks, d, F) {
      assert false;
    }
    AncestorStep(disks, d, k, F);
    if k + 1 < ChainLength(disks, d, F) {
      AncestorStep(disks, d, k + 1, F);
    }
    WalkedStep(disks, d, k);
  }

  /** An ending walk stops only at its top. */
  lemma ClimbDone(disks: map<string, LocalDevice>, d: string, k: nat)
    requires ChainEnds(disks, d, |disks|) && k <= ChainLength(disks, d, |disks|)
    requires Ancestor(disks, d, k) in disks && disks[Ancestor(disks, d, k)].parent == ""
    ensures k == ChainLength(disks, d, |disks|)
  {
    if k < ChainLength(disks, d, |disks|) {
      AncestorStep(disks, d, k, |disks|);
    }
  }

  /** One visit of the walk at disk.go:121-126: a device that is root when
      visited marks its parent chain; any other device marks nothing. */
  method VisitDevice(disks: map<string, LocalDevice>, ghost visited: set<string>, out0: map<string, LocalDevice>,
                     d: string)
    returns (out: map<string, LocalDevice>)
    requires RootChainsEnd(disks) && d in disks
    requires out0 == WithRoots(disks, MarkedSet(disks, visited))
    ensures out == WithRoots(disks, MarkedSet(disks, visited + {d}))
  {
    if out0[d].isRoot {
      WalkCompletes(disks, visited, d);
      out := WalkUp(disks, MarkedSet(disks, visited), out0, d);
    } else {
      VisitUnmarked(disks, visited, d);
      out := out0;
    }
  }

  /** Moving one name from the unvisited to the visited ones. */
  lemma SetStep(keys: set<string>, todo: set<string>, d: string)
    requires todo <= keys && d in todo
    ensures |todo - {d}| < |todo| && todo - {d} <= keys
    ensures keys - (todo - {d}) == (keys - todo) + {d}
  {
  }

  /** The walk at disk.go:121-126, over the devices in any order: every device
      that is root when visited marks its whole parent chain root. */
  method PropagateRoots(disks: map<string, LocalDevice>) returns (out: map<string, LocalDevice>)
    requires RootChainsEnd(disks)
    ensures out == RootClosure(disks)
  {
    out := disks;
    var todo := disks.Keys;
    ghost var visited: set<string> := {};
    NothingWalked(disks);
    while todo != {}
      invariant todo <= disks.Keys && visited == disks.Keys - todo
      invariant out == WithRoots(disks, MarkedSet(disks, visited))
      decreases |todo|
    {
      var d :| d in todo;
      SetStep(disks.Keys, todo, d);
      todo := todo - {d};
      out := VisitDevice(disks, visited, out, d);
      visited := visited + {d};
    }
    assert visited == disks.Keys;
  }

  /** After the walk the root flag is closed under Parent: the parent of a root
      device is a device and is root. */
  lemma RootClosureParentClosed(disks: map<string, LocalDevice>, k: string)
    requires RootChainsEnd(disks)
    requires k in disks && RootClosure(disks)[k].isRoot && disks[k].parent != ""
    ensures disks[k].parent in disks && RootClosure(disks)[disks[k].parent].isRoot
  {
    var F := |disks|;
    assert k in MarkedSet(disks, disks.Keys);
    var r: string, j: nat;
    if disks[k].isRoot {
      r, j := k, 0;
    } else {
      r, j :| r in disks.Keys && r in disks && disks[r].isRoot && j <= ChainLength(disks, r, F) && Ancestor(disks, r, j) == k;
    }
    if j == ChainLength(disks, r, F) {
      assert false;
    }
    AncestorStep(disks, r, j, F);
    var p := disks[k].parent;
    assert Ancestor(disks, r, j + 1) == p;
    if j + 1 < ChainLength(disks, r, F) {
      AncestorStep(disks, r, j + 1, F);
    } else {
      assert ChainEnds(disks, r, F);
    }
    assert ReachedFrom(disks, disks.Keys, p);
    assert p in MarkedSet(disks, disks.Keys);
  }

  /** The walk marks no more than it must: any set of names that holds every
      root device and is closed under Parent holds every device marked root. */
  lemma RootClosureLeast(disks: map<string, LocalDevice>, s: set<string>, k: string)
    requires forall x :: x in disks && disks[x].isRoot ==> x in s
    requires forall x :: x in s && x in disks && disks[x].parent != "" ==> disks[x].parent in s
    requires k in disks && RootClosure(disks)[k].isRoot
    ensures k in s
  {
    assert k in MarkedSet(disks, disks.Keys);
    if !disks[k].isRoot {
      var r: string, j: nat :| r in disks.Keys && r in disks && disks[r].isRoot && j <= ChainLength(disks, r, |disks|) && Ancestor(disks, r, j) == k;
      AncestorsInClosedSet(disks, s, r, j);
    }
  }

  lemma {:induction false} AncestorsInClosedSet(disks: map<string, LocalDevice>, s: set<string>, n: string, j: nat)
    requires forall x :: x in s && x in disks && disks[x].parent != "" ==> disks[x].parent in s
    requires n in s
    ensures Ancestor(disks, n, j) in s
    decreases j
  {
    if j > 0 && n in disks && disks[n].parent != "" {
      AncestorsInClosedSet(disks, s, disks[n].parent, j - 1);
    }
  }

  // ---------------------------------------------------------------------------
  // DiscoverDevices

  /** What DiscoverDevices yields: the devices by name, the lsblk error, or a
      walk that dereferences a missing parent or never ends. */
  datatype Discovery = Discovered(disks: map<string, LocalDevice>) | DiscoveryFailed(error: GoError) | WalkCrashes

  /** The lsblk call DiscoverDevices makes. */
  function DiscoveryQuery(exec: Executor): Result<string, GoError>
  {
    ExecuteCommandWithOutput(exec, "lsblk",
      ["--all", "--bytes", "--pairs", "--paths", "--output", "SIZE,ROTA,RO,TYPE,PKNAME,NAME,KNAME,UUID,WWN,MOUNTPOINT"])
  }

  /** The devices before the root walk, for an lsblk output. */
  function FoundDevices(exec: Executor, inContainer: bool, output: string): map<string, LocalDevice>
  {
    var deviceProps := Grouped(ScannerLines(output));
    DiscoveredMap(exec, inContainer, deviceProps, deviceProps.Keys)
  }

  /** What DiscoverDevices yields for an executor: the lsblk error, the
      scanner's error on an over-long line, or the discovered devices after the
      root walk, or the walk's crash. */
  ghost function Discover(exec: Executor, inContainer: bool): Discovery
  {
    match DiscoveryQuery(exec)
    case Err(e) => DiscoveryFailed(e)
    case Ok(output) =>
      if ScanTooLong(output) then DiscoveryFailed(ScanFailure)
      else
        var found := FoundDevices(exec, inContainer, output);
        if RootChainsEnd(found) then Discovered(RootClosure(found)) else WalkCrashes
  }

  /** DiscoverDevices: list every block device, group the records by NAME,
      build a device per supported non-rbd record, then walk the root chains. */
  method DiscoverDevices(exec: Executor, inContainer: bool) returns (r: Discovery)
    ensures r == Discover(exec, inContainer)
  {
    var output := DiscoveryQuery(exec);
    if output.Err? {
      return DiscoveryFailed(output.error);
    }
    if ScanTooLong(output.value) {
      return DiscoveryFailed(ScanFailure);
    }
    var deviceProps := GroupByName(ScannerLines(output.value));
    var disks := DiscoverEach(exec, inContainer, deviceProps);
    if !RootChainsEnd(disks) {
      return WalkCrashes;
    }
    disks := PropagateRoots(disks);
    return Discovered(disks);
  }

  /** DiscoverDevices fails iff the lsblk call fails, with that call's error,
      or its output has a line too long for the scanner, with the scan error. */
  lemma DiscoverFails(exec: Executor, inContainer: bool)
    ensures Discover(exec, inContainer).DiscoveryFailed? <==>
      DiscoveryQuery(exec).Err? || ScanTooLong(DiscoveryQuery(exec).value)
    ensures DiscoveryQuery(exec).Err? ==>
      Discover(exec, inContainer).error == exec("lsblk", ["--all", "--bytes", "--pairs", "--paths", "--output",
                                                          "SIZE,ROTA,RO,TYPE,PKNAME,NAME,KNAME,UUID,WWN,MOUNTPOINT"]).err.value
    ensures DiscoveryQuery(exec).Ok? && ScanTooLong(DiscoveryQuery(exec).value) ==>
      Discover(exec, inContainer).error == ScanFailure
  {
  }

  /** The keys of the result are exactly the NAMEs of supported non-rbd
      records; each device's real path is its key and its root flag says
      whether it is on the parent chain of a device mounted at the root. */
  lemma DiscoveredKeys(exec: Executor, inContainer: bool, output: string, k: string)
    requires RootChainsEnd(FoundDevices(exec, inContainer, output))
    ensures var deviceProps := Grouped(ScannerLines(output));
      var result := RootClosure(FoundDevices(exec, inContainer, output));
      (k in result <==> k in deviceProps && !IgnoreDevice(k) && "TYPE" in deviceProps[k]
                        && SupportedDeviceType(deviceProps[k]["TYPE"]))
      && (k in result ==> result[k].realPath == k && result[k].name == k)
  {
    var lines := ScannerLines(output);
    GroupedKeys(lines, k);
    if k in Grouped(lines) {
      DiscoveredDeviceFacts(exec, inContainer, k, Grouped(lines)[k]);
    }
  }
}
