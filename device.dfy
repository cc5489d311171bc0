/** Block-device queries (pkg/util/sys/device.go): the lsblk and udevadm text
    parsers, the device-name classifiers, path normalisation and partition
    accounting. Every query goes through the executor oracle. */
module Device {
  import opened Wrappers
  import opened Strings
  import opened Exec

  const DiskType: string := "disk"
  const SSDType: string := "ssd"
  const PartType: string := "part"
  const CryptType: string := "crypt"
  const LVMType: string := "lvm"
  const MultiPath: string := "mpath"
  const LinearType: string := "linear"

  /** Prefix of a logical volume owned by ceph-volume. */
  const CephLVPrefix: string := "ceph--"

  const SystemRootPath: string := "/"
  const SystemRootfsPath: string := "/rootfs"
  const DiskBusUsb: string := "usb"

  /** Go's uint64 arithmetic is modulo 2^64. */
  const Uint64Modulus: nat := 0x1_0000_0000_0000_0000

  /** Go's `a + b` on uint64. */
  function AddUint64(a: nat, b: nat): (r: nat)
    ensures r < Uint64Modulus
    ensures a + b < Uint64Modulus ==> r == a + b
  {
    (a + b) % Uint64Modulus
  }

  /** Go's `a - b` on uint64. */
  function SubUint64(a: nat, b: nat): (r: nat)
    ensures r < Uint64Modulus
    ensures b <= a < Uint64Modulus ==> r == a - b
  {
    (a - b) % Uint64Modulus
  }

  /** Partition metadata. */
  datatype Partition = Partition(name: string, size: nat := 0, partLabel: string := "", filesystem: string := "")

  /** What discovery knows about one block device. The defaults are Go's zero values. */
  datatype LocalDevice = LocalDevice(
    name: string := "",
    parent: string := "",
    hasChildren: bool := false,
    devLinks: string := "",
    size: nat := 0,
    guid: string := "",
    uuid: string := "",
    serial: string := "",
    bus: string := "",
    deviceType: string := "",
    rotational: bool := false,
    readonly: bool := false,
    partitions: seq<Partition> := [],
    filesystem: string := "",
    vendor: string := "",
    model: string := "",
    pathID: string := "",
    wwn: string := "",
    wwnVendorExtension: string := "",
    realPath: string := "",
    kernelName: string := "",
    encrypted: bool := false,
    isRoot: bool := false,
    mountPoint: string := "",
    empty: bool := false,
    deviceClass: string := "")

  // ---------------------------------------------------------------------------
  // Path normalisation

  /** A device argument that is a single `/`-separated piece is a bare kernel
      name and gets "/dev/" in front; anything else is used as given. */
  function DevicePath(device: string): string
  {
    if |Split(device, '/')| == 1 then "/dev/" + device else device
  }

  /** DevicePath prefixes exactly the names without a `/`, always yields a
      path, and normalising twice changes nothing. */
  lemma DevicePathNormalises(device: string)
    ensures '/' !in device ==> DevicePath(device) == "/dev/" + device
    ensures '/' in device ==> DevicePath(device) == device
    ensures '/' in DevicePath(device)
    ensures DevicePath(DevicePath(device)) == DevicePath(device)
  {
    SplitSingleton(device, '/');
    assert ("/dev/" + device)[0] == '/';
    SplitSingleton(DevicePath(device), '/');
  }

  // ---------------------------------------------------------------------------
  // lsblk `K="V"` pairs

  /** A token is a pair when it holds exactly one '='. */
  predicate IsPair(t: string)
  {
    Count(t, '=') == 1
  }

  /** A pair splits on '=' into the text before and the text after its '='. */
  lemma PairShape(t: string)
    requires IsPair(t)
    ensures IndexOfChar(t, '=').Some?
    ensures var i := IndexOfChar(t, '=').value;
      '=' !in t[i + 1..] && Split(t, '=') == [t[..i], t[i + 1..]]
  {
    if '=' !in t { CountAbsent(t, '='); }
    var i := IndexOfChar(t, '=').value;
    var rest := t[i + 1..];
    assert t == t[..i] + (['='] + rest);
    CountAppend(t[..i], ['='] + rest, '=');
    CountAbsent(t[..i], '=');
    assert (['='] + rest)[1..] == rest;
    if '=' in rest { CountPresent(rest, '='); }
    SplitUnfold(t, '=', i);
  }

  /** The key of a pair: the text before its '='. */
  function PairKey(t: string): (k: string)
    requires IsPair(t)
    ensures '=' !in k
  {
    PairShape(t);
    t[..IndexOfChar(t, '=').value]
  }

  /** The value of a pair: the text after its '=', with every '"' removed. */
  function PairValue(t: string): (v: string)
    requires IsPair(t)
    ensures '"' !in v && '=' !in v
  {
    PairShape(t);
    var rest := t[IndexOfChar(t, '=').value + 1..];
    assert '=' !in rest;
    RemoveCharKeeps(rest, '"', '=');
    RemoveChar(rest, '"')
  }

  /** A token that is a pair with key `k`. */
  predicate PairFor(t: string, k: string)
  {
    IsPair(t) && PairKey(t) == k
  }

  /** The map parseKeyValuePairString builds from the space-separated tokens
      of an lsblk line, token by token. */
  function KvPairs(tokens: seq<string>): map<string, string>
  {
    if tokens == [] then map[]
    else
      var m := KvPairs(tokens[..|tokens| - 1]);
      var kvp := Split(tokens[|tokens| - 1], '=');
      if |kvp| == 2 then m[kvp[0] := RemoveChar(kvp[1], '"')] else m
  }

  /** parseKeyValuePairString: split the line on single spaces and, for every
      token that splits on '=' into exactly two parts, record key and unquoted
      value. */
  method ParseKeyValuePairString(propsRaw: string) returns (propMap: map<string, string>)
    ensures propMap == KvPairs(Split(propsRaw, ' '))
  {
    var props := Split(propsRaw, ' ');
    propMap := map[];
    for i := 0 to |props|
      invariant propMap == KvPairs(props[..i])
    {
      assert props[..i + 1][..i] == props[..i];
      var kvp := Split(props[i], '=');
      if |kvp| == 2 {
        propMap := propMap[kvp[0] := RemoveChar(kvp[1], '"')];
      }
    }
    assert props[..|props|] == props;
  }

  /** A token is recorded exactly when it holds one '='. */
  lemma PairTokenRecorded(t: string)
    ensures |Split(t, '=')| == 2 <==> IsPair(t)
    ensures IsPair(t) ==> Split(t, '=')[0] == PairKey(t) && RemoveChar(Split(t, '=')[1], '"') == PairValue(t)
  {
    SplitLength(t, '=');
    if IsPair(t) { PairShape(t); }
  }

  /** A key is in the parsed map iff some token is a pair with that key. */
  lemma {:induction false} KvPairsKeys(tokens: seq<string>, k: string)
    ensures k in KvPairs(tokens) <==> exists j :: 0 <= j < |tokens| && PairFor(tokens[j], k)
  {
    if tokens != [] {
      var n := |tokens| - 1;
      KvPairsKeys(tokens[..n], k);
      PairTokenRecorded(tokens[n]);
      assert forall j :: 0 <= j < n ==> tokens[j] == tokens[..n][j];
    }
  }

  /** A later token with the same key wins: the value is the one of the last
      pair with that key. */
  lemma {:induction false} KvPairsLastWins(tokens: seq<string>, k: string, j: nat)
    requires j < |tokens| && PairFor(tokens[j], k)
    requires forall l :: j < l < |tokens| ==> !PairFor(tokens[l], k)
    ensures k in KvPairs(tokens) && KvPairs(tokens)[k] == PairValue(tokens[j])
  {
    var n := |tokens| - 1;
    var init := tokens[..n];
    PairTokenRecorded(tokens[n]);
    if j < n {
      assert forall l :: j < l < n ==> init[l] == tokens[l];
      KvPairsLastWins(init, k, j);
    }
  }

  /** Parsed keys hold no '=', parsed values neither '=' nor '"'. */
  lemma {:induction false} KvPairsClean(tokens: seq<string>)
    ensures forall k :: k in KvPairs(tokens) ==> '=' !in k && '"' !in KvPairs(tokens)[k] && '=' !in KvPairs(tokens)[k]
  {
    if tokens != [] {
      var n := |tokens| - 1;
      KvPairsClean(tokens[..n]);
      PairTokenRecorded(tokens[n]);
    }
  }

  // ---------------------------------------------------------------------------
  // udevadm `K=V` lines

  /** The key of a udev line holding '=': the text before the first '='. */
  function UdevKey(line: string): string
    requires '=' in line
  {
    line[..IndexOfChar(line, '=').value]
  }

  /** The value of a udev line holding '=': the text between the first '='
      and the second one, or the end of the line. */
  function UdevValue(line: string): (v: string)
    requires '=' in line
    ensures '=' !in v
  {
    var rest := line[IndexOfChar(line, '=').value + 1..];
    match IndexOfChar(rest, '=')
    case None => rest
    case Some(j) => rest[..j]
  }

  /** A udev line with key `k`. */
  predicate UdevLineFor(line: string, k: string)
  {
    '=' in line && UdevKey(line) == k
  }

  /** The map parseUdevInfo builds, line by line. */
  function UdevPairs(lines: seq<string>): map<string, string>
  {
    if lines == [] then map[]
    else
      var m := UdevPairs(lines[..|lines| - 1]);
      var pairs := Split(lines[|lines| - 1], '=');
      if |pairs| > 1 then m[pairs[0] := pairs[1]] else m
  }

  /** parseUdevInfo: every line that splits on '=' into more than one part
      records its first part as key and its second part as value. */
  method ParseUdevInfo(output: string) returns (result: map<string, string>)
    ensures result == UdevPairs(Split(output, '\n'))
  {
    var lines := Split(output, '\n');
    result := map[];
    for i := 0 to |lines|
      invariant result == UdevPairs(lines[..i])
    {
      assert lines[..i + 1][..i] == lines[..i];
      var pairs := Split(lines[i], '=');
      if |pairs| > 1 {
        result := result[pairs[0] := pairs[1]];
      }
    }
    assert lines[..|lines|] == lines;
  }

  /** A udev line is recorded exactly when it holds '=', under its key and value. */
  lemma UdevLineRecorded(line: string)
    ensures |Split(line, '=')| > 1 <==> '=' in line
    ensures '=' in line ==> Split(line, '=')[0] == UdevKey(line) && Split(line, '=')[1] == UdevValue(line)
  {
    SplitSingleton(line, '=');
    if '=' in line {
      SplitUnfold(line, '=', IndexOfChar(line, '=').value);
    }
  }

  /** A key is in the udev map iff some line holding '=' has that key. */
  lemma {:induction false} UdevPairsKeys(lines: seq<string>, k: string)
    ensures k in UdevPairs(lines) <==> exists j :: 0 <= j < |lines| && UdevLineFor(lines[j], k)
  {
    if lines != [] {
      var n := |lines| - 1;
      UdevPairsKeys(lines[..n], k);
      UdevLineRecorded(lines[n]);
      assert forall j :: 0 <= j < n ==> lines[j] == lines[..n][j];
    }
  }

  /** Later lines win: the value is the one of the last line with that key. */
  lemma {:induction false} UdevPairsLastWins(lines: seq<string>, k: string, j: nat)
    requires j < |lines| && UdevLineFor(lines[j], k)
    requires forall l :: j < l < |lines| ==> !UdevLineFor(lines[l], k)
    ensures k in UdevPairs(lines) && UdevPairs(lines)[k] == UdevValue(lines[j])
  {
    var n := |lines| - 1;
    var init := lines[..n];
    UdevLineRecorded(lines[n]);
    if j < n {
      assert forall l :: j < l < n ==> init[l] == lines[l];
      UdevPairsLastWins(init, k, j);
    }
  }

  /** parseFS: the ID_FS_TYPE entry of the udev output, or "". */
  function ParseFS(output: string): (fs: string)
    ensures '=' !in fs
  {
    var lines := Split(output, '\n');
    var m := UdevPairs(lines);
    if "ID_FS_TYPE" in m then
      UdevPairsValues(lines);
      m["ID_FS_TYPE"]
    else ""
  }

  /** Every udev value is the value of one of the lines. */
  lemma {:induction false} UdevPairsValues(lines: seq<string>)
    ensures forall k :: k in UdevPairs(lines) ==> '=' !in UdevPairs(lines)[k]
  {
    if lines != [] {
      var n := |lines| - 1;
      UdevPairsValues(lines[..n]);
      UdevLineRecorded(lines[n]);
    }
  }

  /** parseFS yields the value of the last ID_FS_TYPE line, and "" when there
      is none. */
  lemma ParseFSLastLine(output: string, j: nat)
    requires var lines := Split(output, '\n');
      j < |lines| && UdevLineFor(lines[j], "ID_FS_TYPE")
      && forall l :: j < l < |lines| ==> !UdevLineFor(lines[l], "ID_FS_TYPE")
    ensures ParseFS(output) == UdevValue(Split(output, '\n')[j])
  {
    UdevPairsLastWins(Split(output, '\n'), "ID_FS_TYPE", j);
  }

  lemma ParseFSAbsent(output: string)
    requires forall line :: line in Split(output, '\n') ==> !UdevLineFor(line, "ID_FS_TYPE")
    ensures ParseFS(output) == ""
  {
    var lines := Split(output, '\n');
    UdevPairsKeys(lines, "ID_FS_TYPE");
  }

  // ---------------------------------------------------------------------------
  // Classifiers

  /** hasCephLvmPrefix: the name, or the name without "/dev/mapper/", or the
      name without "/dev/", starts with "ceph--". */
  predicate HasCephLvmPrefix(deviceName: string)
  {
    HasPrefix(deviceName, CephLVPrefix)
    || HasPrefix(TrimPrefix(deviceName, "/dev/mapper/"), CephLVPrefix)
    || HasPrefix(TrimPrefix(deviceName, "/dev/"), CephLVPrefix)
  }

  /** The ceph prefix is recognised at exactly three places: at the start, after
      "/dev/mapper/", or after "/dev/". */
  lemma CephLvmPrefixForms(deviceName: string)
    ensures HasCephLvmPrefix(deviceName) <==>
      HasPrefix(deviceName, CephLVPrefix)
      || HasPrefix(deviceName, "/dev/mapper/" + CephLVPrefix)
      || HasPrefix(deviceName, "/dev/" + CephLVPrefix)
  {
    if HasPrefix(deviceName, "/dev/mapper/") {
      PrefixAfterTrim(deviceName, "/dev/mapper/", CephLVPrefix);
    } else if HasPrefix(deviceName, "/dev/mapper/" + CephLVPrefix) {
      PrefixOfLonger(deviceName, "/dev/mapper/", CephLVPrefix);
    }
    if HasPrefix(deviceName, "/dev/") {
      PrefixAfterTrim(deviceName, "/dev/", CephLVPrefix);
    } else if HasPrefix(deviceName, "/dev/" + CephLVPrefix) {
      PrefixOfLonger(deviceName, "/dev/", CephLVPrefix);
    }
  }

  /** The class of a disk: "hdd" when rotational, otherwise "nvme" when the
      real path mentions nvme, otherwise "ssd". */
  function DeviceClass(rotational: bool, realPath: string): (c: string)
    ensures c in {"hdd", "nvme", "ssd"}
    ensures c == "hdd" <==> rotational
    ensures c == "nvme" <==> !rotational && Contains(realPath, "nvme")
  {
    if rotational then "hdd"
    else if Contains(realPath, "nvme") then "nvme"
    else "ssd"
  }

  /** GetDiskDeviceClass: the class depends on the rotational flag and the
      real path only. */
  function GetDiskDeviceClass(disk: LocalDevice): string
  {
    DeviceClass(disk.rotational, disk.realPath)
  }

  // ---------------------------------------------------------------------------
  // Queries through the executor

  /** GetDevicePropertiesFromPath: `lsblk <path> --bytes --nodeps --pairs
      --paths --output SIZE,ROTA,RO,TYPE,PKNAME,NAME,KNAME,UUID`, parsed as
      pairs; an executor error is returned as is. */
  function GetDevicePropertiesFromPath(exec: Executor, devicePath: string): (r: Result<map<string, string>, GoError>)
    ensures var out := ExecuteCommandWithOutput(exec, "lsblk",
        [devicePath, "--bytes", "--nodeps", "--pairs", "--paths", "--output", "SIZE,ROTA,RO,TYPE,PKNAME,NAME,KNAME,UUID"]);
      (out.Err? ==> r == Err(out.error)) && (out.Ok? ==> r == Ok(KvPairs(Split(out.value, ' '))))
  {
    match ExecuteCommandWithOutput(exec, "lsblk",
      [devicePath, "--bytes", "--nodeps", "--pairs", "--paths", "--output", "SIZE,ROTA,RO,TYPE,PKNAME,NAME,KNAME,UUID"])
    case Err(e) => Err(e)
    case Ok(output) => Ok(KvPairs(Split(output, ' ')))
  }

  /** GetDeviceProperties: the properties of a bare name are those of
      "/dev/" + name; a path is queried as given. */
  function GetDeviceProperties(exec: Executor, device: string): (r: Result<map<string, string>, GoError>)
    ensures '/' !in device ==> r == GetDevicePropertiesFromPath(exec, "/dev/" + device)
    ensures '/' in device ==> r == GetDevicePropertiesFromPath(exec, device)
  {
    DevicePathNormalises(device);
    GetDevicePropertiesFromPath(exec, DevicePath(device))
  }

  /** IsLV: whether lsblk reports TYPE "lvm"; an error when the query fails or
      reports no TYPE. */
  function IsLV(exec: Executor, devicePath: string): (r: Result<bool, GoError>)
    ensures GetDevicePropertiesFromPath(exec, devicePath).Err? ==> r.Err?
    ensures r.Ok? <==> GetDevicePropertiesFromPath(exec, devicePath).Ok? && "TYPE" in GetDevicePropertiesFromPath(exec, devicePath).value
    ensures r.Ok? ==> (r.value <==> GetDevicePropertiesFromPath(exec, devicePath).value["TYPE"] == LVMType)
  {
    match GetDevicePropertiesFromPath(exec, devicePath)
    case Err(e) => Err(OtherError("failed to get device properties for " + Quote(devicePath) + ": " + ErrorText(e)))
    case Ok(devProps) =>
      if "TYPE" !in devProps then Err(OtherError("TYPE property is not found for " + Quote(devicePath)))
      else Ok(devProps["TYPE"] == LVMType)
  }

  /** On a successful lsblk query, IsLV answers from the last TYPE token of the
      output, and fails when there is none. */
  lemma IsLVFromLastTypeToken(exec: Executor, devicePath: string, output: string, j: nat)
    requires ExecuteCommandWithOutput(exec, "lsblk",
      [devicePath, "--bytes", "--nodeps", "--pairs", "--paths", "--output", "SIZE,ROTA,RO,TYPE,PKNAME,NAME,KNAME,UUID"]) == Ok(output)
    requires var tokens := Split(output, ' ');
      j < |tokens| && PairFor(tokens[j], "TYPE") && forall l :: j < l < |tokens| ==> !PairFor(tokens[l], "TYPE")
    ensures IsLV(exec, devicePath) == Ok(PairValue(Split(output, ' ')[j]) == LVMType)
  {
    KvPairsLastWins(Split(output, ' '), "TYPE", j);
  }

  lemma IsLVWithoutTypeToken(exec: Executor, devicePath: string, output: string)
    requires ExecuteCommandWithOutput(exec, "lsblk",
      [devicePath, "--bytes", "--nodeps", "--pairs", "--paths", "--output", "SIZE,ROTA,RO,TYPE,PKNAME,NAME,KNAME,UUID"]) == Ok(output)
    requires forall t :: t in Split(output, ' ') ==> !PairFor(t, "TYPE")
    ensures IsLV(exec, devicePath).Err?
  {
    var tokens := Split(output, ' ');
    KvPairsKeys(tokens, "TYPE");
  }

  /** GetUdevInfo: `udevadm info --query=property <path>` parsed as udev lines. */
  function GetUdevInfo(exec: Executor, device: string): (r: Result<map<string, string>, GoError>)
    ensures var out := ExecuteCommandWithOutput(exec, "udevadm", ["info", "--query=property", DevicePath(device)]);
      (out.Err? ==> r == Err(out.error)) && (out.Ok? ==> r == Ok(UdevPairs(Split(out.value, '\n'))))
  {
    match ExecuteCommandWithOutput(exec, "udevadm", ["info", "--query=property", DevicePath(device)])
    case Err(e) => Err(e)
    case Ok(output) => Ok(UdevPairs(Split(output, '\n')))
  }

  /** The lsblk query GetDevicePropertiesFromPath runs. */
  function PropertiesQuery(exec: Executor, devicePath: string): Result<string, GoError>
  {
    ExecuteCommandWithOutput(exec, "lsblk",
      [devicePath, "--bytes", "--nodeps", "--pairs", "--paths", "--output", "SIZE,ROTA,RO,TYPE,PKNAME,NAME,KNAME,UUID"])
  }

  /** The udevadm query GetUdevInfo runs. */
  function UdevQuery(exec: Executor, device: string): Result<string, GoError>
  {
    ExecuteCommandWithOutput(exec, "udevadm", ["info", "--query=property", DevicePath(device)])
  }

  /** On a successful lsblk query, a property is present iff some token of the
      output is a pair for it. */
  lemma DevicePropertiesKeys(exec: Executor, devicePath: string, output: string, k: string)
    requires PropertiesQuery(exec, devicePath) == Ok(output)
    ensures var r := GetDevicePropertiesFromPath(exec, devicePath); var tokens := Split(output, ' ');
      r.Ok? && (k in r.value <==> exists j :: 0 <= j < |tokens| && PairFor(tokens[j], k))
  {
    assert GetDevicePropertiesFromPath(exec, devicePath) == Ok(KvPairs(Split(output, ' ')));
    KvPairsKeys(Split(output, ' '), k);
  }

  /** On a successful lsblk query, a property's value is that of its last pair
      token. */
  lemma DevicePropertiesLastWins(exec: Executor, devicePath: string, output: string, k: string, j: nat)
    requires PropertiesQuery(exec, devicePath) == Ok(output)
    requires var tokens := Split(output, ' ');
      j < |tokens| && PairFor(tokens[j], k) && forall l :: j < l < |tokens| ==> !PairFor(tokens[l], k)
    ensures var r := GetDevicePropertiesFromPath(exec, devicePath);
      r.Ok? && k in r.value && r.value[k] == PairValue(Split(output, ' ')[j])
  {
    assert GetDevicePropertiesFromPath(exec, devicePath) == Ok(KvPairs(Split(output, ' ')));
    KvPairsLastWins(Split(output, ' '), k, j);
  }

  /** On a successful udevadm query, a key is present iff some line of the
      output sets it. */
  lemma UdevInfoKeys(exec: Executor, device: string, output: string, k: string)
    requires UdevQuery(exec, device) == Ok(output)
    ensures var r := GetUdevInfo(exec, device); var lines := Split(output, '\n');
      r.Ok? && (k in r.value <==> exists j :: 0 <= j < |lines| && UdevLineFor(lines[j], k))
  {
    assert GetUdevInfo(exec, device) == Ok(UdevPairs(Split(output, '\n')));
    UdevPairsKeys(Split(output, '\n'), k);
  }

  /** On a successful udevadm query, a key's value is the one set by the last
      line for it. */
  lemma UdevInfoLastWins(exec: Executor, device: string, output: string, k: string, j: nat)
    requires UdevQuery(exec, device) == Ok(output)
    requires var lines := Split(output, '\n');
      j < |lines| && UdevLineFor(lines[j], k) && forall l :: j < l < |lines| ==> !UdevLineFor(lines[l], k)
    ensures var r := GetUdevInfo(exec, device);
      r.Ok? && k in r.value && r.value[k] == UdevValue(Split(output, '\n')[j])
  {
    assert GetUdevInfo(exec, device) == Ok(UdevPairs(Split(output, '\n')));
    UdevPairsLastWins(Split(output, '\n'), k, j);
  }

  /** GetDeviceFilesystems: the ID_FS_TYPE of the same udev query, or "". */
  function GetDeviceFilesystems(exec: Executor, device: string): (r: Result<string, GoError>)
    ensures r.Err? <==> GetUdevInfo(exec, device).Err?
  {
    match ExecuteCommandWithOutput(exec, "udevadm", ["info", "--query=property", DevicePath(device)])
    case Err(e) => Err(e)
    case Ok(output) => Ok(ParseFS(output))
  }

  /** The filesystem query agrees with the udev map: it is its ID_FS_TYPE entry,
      or "" when the map has none. */
  lemma FilesystemsAgreeWithUdevInfo(exec: Executor, device: string)
    requires GetUdevInfo(exec, device).Ok?
    ensures var m := GetUdevInfo(exec, device).value;
      GetDeviceFilesystems(exec, device) == Ok(if "ID_FS_TYPE" in m then m["ID_FS_TYPE"] else "")
  {
  }

  /** GetLVName: "VG/LV" from the first two `:`-fields of `dmsetup splitname`
      run on the output of `dmsetup info`. */
  function GetLVName(exec: Executor, devicePath: string): (r: Result<string, GoError>)
  {
    match ExecuteCommandWithOutput(exec, "dmsetup", ["info", "-c", "--noheadings", "-o", "name", devicePath])
    case Err(e) => Err(OtherError("failed to execute dmsetup info for " + Quote(devicePath) + ". " + ErrorText(e)))
    case Ok(devInfo) =>
      match ExecuteCommandWithOutput(exec, "dmsetup", ["splitname", "--noheadings", devInfo])
      case Err(e) => Err(OtherError("failed to execute dmsetup splitname for " + Quote(devInfo) + ". " + ErrorText(e)))
      case Ok(out) =>
        var split := Split(out, ':');
        if |split| < 2 then
          Err(OtherError("dmsetup splitname returned unexpected result for " + Quote(devInfo) + ". output: " + Quote(out)))
        else Ok(split[0] + "/" + split[1])
  }

  /** When both dmsetup calls succeed, GetLVName fails iff the splitname output
      has no ':'; otherwise the output starts with VG ':' LV (neither holding
      ':') and the answer is VG "/" LV. */
  lemma GetLVNameFields(exec: Executor, devicePath: string, devInfo: string, out: string)
    requires ExecuteCommandWithOutput(exec, "dmsetup", ["info", "-c", "--noheadings", "-o", "name", devicePath]) == Ok(devInfo)
    requires ExecuteCommandWithOutput(exec, "dmsetup", ["splitname", "--noheadings", devInfo]) == Ok(out)
    ensures GetLVName(exec, devicePath).Err? <==> ':' !in out
    ensures GetLVName(exec, devicePath).Ok? ==>
      exists vg, lv :: ':' !in vg && ':' !in lv && HasPrefix(out, vg + ":" + lv)
        && (|vg + ":" + lv| == |out| || out[|vg + ":" + lv|] == ':')
        && GetLVName(exec, devicePath) == Ok(vg + "/" + lv)
  {
    SplitSingleton(out, ':');
    var split := Split(out, ':');
    if |split| >= 2 {
      SplitFirstTwo(out, ':');
      var vg, lv := split[0], split[1];
      assert GetLVName(exec, devicePath) == Ok(vg + "/" + lv);
      assert vg + ":" + lv == vg + [':'] + lv;
      assert HasPrefix(out, vg + ":" + lv);
      assert ':' !in vg && ':' !in lv;
    } else {
      assert GetLVName(exec, devicePath).Err?;
    }
  }

  /** ListDevicesChild: the lines of `lsblk --noheadings --path --list --output
      NAME <path>`; on failure an empty list together with the error. */
  function ListDevicesChild(exec: Executor, device: string): (r: (seq<string>, Option<GoError>))
    ensures var out := ExecuteCommandWithOutput(exec, "lsblk", ["--noheadings", "--path", "--list", "--output", "NAME", DevicePath(device)]);
      (out.Err? ==> r.0 == [] && r.1.Some?)
      && (out.Ok? ==> r.1.None? && |r.0| == Count(out.value, '\n') + 1 && Join(r.0, '\n') == out.value)
  {
    var path := DevicePath(device);
    match ExecuteCommandWithOutput(exec, "lsblk", ["--noheadings", "--path", "--list", "--output", "NAME", path])
    case Err(e) => ([], Some(OtherError("failed to list child devices of " + Quote(path) + ". " + ErrorText(e))))
    case Ok(childListRaw) =>
      SplitLength(childListRaw, '\n');
      JoinSplit(childListRaw, '\n');
      (Split(childListRaw, '\n'), None)
  }

  /** IsDeviceEncrypted: whether `lsblk --noheadings --output TYPE <device>`
      prints exactly "crypt"; the device name is not normalised here. */
  function IsDeviceEncrypted(exec: Executor, device: string): (r: Result<bool, GoError>)
    ensures var out := ExecuteCommandWithOutput(exec, "lsblk", ["--noheadings", "--output", "TYPE", device]);
      (out.Err? <==> r.Err?) && (out.Ok? ==> (r.value <==> out.value == CryptType))
  {
    match ExecuteCommandWithOutput(exec, "lsblk", ["--noheadings", "--output", "TYPE", device])
    case Err(e) => Err(OtherError("failed to get devices type of " + Quote(device) + ". " + ErrorText(e)))
    case Ok(deviceType) => Ok(deviceType == CryptType)
  }

  // ---------------------------------------------------------------------------
  // Partition accounting

  /** The columns of the partition query's lsblk line, parsed as pairs. */
  function LineProps(line: string): map<string, string>
  {
    KvPairs(Split(line, ' '))
  }

  /** The SIZE column of a line. */
  function SizeColumn(line: string): string
  {
    Lookup(LineProps(line), "SIZE")
  }

  /** A line describing the queried device itself. */
  predicate NamesDevice(line: string, device: string)
  {
    Lookup(LineProps(line), "NAME") == device
  }

  /** A line describing a partition of the queried device. */
  predicate IsPartitionLine(line: string, device: string)
  {
    var props := LineProps(line);
    !NamesDevice(line, device) && Lookup(props, "PKNAME") == device && Lookup(props, "TYPE") == PartType
  }

  /** A line describing a ceph-volume logical volume. */
  predicate IsCephLvLine(line: string, device: string)
  {
    var props := LineProps(line);
    !NamesDevice(line, device) && Lookup(props, "TYPE") == LVMType && HasCephLvmPrefix(Lookup(props, "NAME"))
  }

  /** What GetDevicePartitions returns on success. */
  datatype PartitionInfo = PartitionInfo(partitions: seq<Partition>, unusedSpace: nat)

  /** What GetDevicePartitions carries from line to line. */
  datatype PartitionScan = PartitionScan(partitions: seq<Partition>, deviceSize: nat, totalPartitionSize: nat)

  /** The partition a "part" line describes: its label is PARTNAME, overridden
      by ID_PART_ENTRY_NAME, and its filesystem is ID_FS_TYPE. */
  function PartitionFromUdev(name: string, size: nat, info: map<string, string>): Partition
  {
    var partLabel := if "ID_PART_ENTRY_NAME" in info then info["ID_PART_ENTRY_NAME"] else Lookup(info, "PARTNAME");
    Partition(name, size, partLabel, Lookup(info, "ID_FS_TYPE"))
  }

  /** One turn of the loop over the lsblk lines. */
  function ScanLine(exec: Executor, device: string, st: PartitionScan, line: string): Result<PartitionScan, GoError>
  {
    var props := LineProps(line);
    var name := Lookup(props, "NAME");
    var sizeText := Lookup(props, "SIZE");
    if NamesDevice(line, device) then
      match ParseUint64(sizeText)
      case None => Err(OtherError("failed to get device " + device + " size. " + ParseUintErrorText(sizeText)))
      case Some(size) => Ok(st.(deviceSize := size))
    else if IsPartitionLine(line, device) then
      match ParseUint64(sizeText)
      case None => Err(OtherError("failed to get partition " + name + " size. " + ParseUintErrorText(sizeText)))
      case Some(size) =>
        match GetUdevInfo(exec, name)
        case Err(e) => Err(e)
        case Ok(info) =>
          Ok(PartitionScan(st.partitions + [PartitionFromUdev(name, size, info)], st.deviceSize,
                           AddUint64(st.totalPartitionSize, size)))
    else if IsCephLvLine(line, device) then
      Ok(st.(partitions := st.partitions + [Partition(name)]))
    else Ok(st)
  }

  /** The loop over the lsblk lines, stopping at the first error. */
  function ScanLines(exec: Executor, device: string, lines: seq<string>): Result<PartitionScan, GoError>
  {
    if lines == [] then Ok(PartitionScan([], 0, 0))
    else
      match ScanLines(exec, device, lines[..|lines| - 1])
      case Err(e) => Err(e)
      case Ok(st) => ScanLine(exec, device, st, lines[|lines| - 1])
  }

  /** The lsblk query GetDevicePartitions runs. */
  function PartitionQuery(exec: Executor, device: string): Result<string, GoError>
  {
    ExecuteCommandWithOutput(exec, "lsblk", [DevicePath(device), "--bytes", "--paths", "--pairs", "--output", "NAME,SIZE,TYPE,PKNAME"])
  }

  /** The unused space after a scan: the device size minus the running total,
      with uint64 wrap-around, or 0 when no size was recorded. */
  function UnusedSpace(st: PartitionScan): nat
  {
    if st.deviceSize > 0 then SubUint64(st.deviceSize, st.totalPartitionSize) else 0
  }

  /** What GetDevicePartitions returns: the partitions and the unused space, or
      an error. The unused space is computed with uint64 wrap-around. */
  function DevicePartitions(exec: Executor, device: string): (r: Result<PartitionInfo, GoError>)
    ensures PartitionQuery(exec, device).Err? ==> r.Err?
    ensures r.Ok? ==> r.value.unusedSpace < Uint64Modulus
  {
    match PartitionQuery(exec, device)
    case Err(e) => Err(OtherError("failed to get device " + device + " partitions. " + ErrorText(e)))
    case Ok(output) =>
      match ScanLines(exec, device, Split(output, '\n'))
      case Err(e) => Err(e)
      case Ok(st) =>
        Ok(PartitionInfo(st.partitions, UnusedSpace(st)))
  }

  /** Once the scan of a prefix has failed, the whole scan fails the same way. */
  lemma {:induction false} ScanErrorSticks(exec: Executor, device: string, lines: seq<string>, i: nat)
    requires i <= |lines| && ScanLines(exec, device, lines[..i]).Err?
    ensures ScanLines(exec, device, lines) == ScanLines(exec, device, lines[..i])
    decreases |lines|
  {
    if i < |lines| {
      var init := lines[..|lines| - 1];
      assert init[..i] == lines[..i];
      ScanErrorSticks(exec, device, init, i);
    } else {
      assert lines[..i] == lines;
    }
  }

  /** The body of GetDevicePartitions' loop for one lsblk line. */
  method ScanPartitionLine(exec: Executor, device: string, st: PartitionScan, line: string)
    returns (r: Result<PartitionScan, GoError>)
    ensures r == ScanLine(exec, device, st, line)
  {
    var props := ParseKeyValuePairString(line);
    var name := Lookup(props, "NAME");
    if name == device {
      var size := ParseUint64(Lookup(props, "SIZE"));
      if size.None? {
        return Err(OtherError("failed to get device " + device + " size. " + ParseUintErrorText(Lookup(props, "SIZE"))));
      }
      return Ok(st.(deviceSize := size.value));
    } else if Lookup(props, "PKNAME") == device && Lookup(props, "TYPE") == PartType {
      var size := ParseUint64(Lookup(props, "SIZE"));
      if size.None? {
        return Err(OtherError("failed to get partition " + name + " size. " + ParseUintErrorText(Lookup(props, "SIZE"))));
      }
      var totalPartitionSize := AddUint64(st.totalPartitionSize, size.value);
      var info := GetUdevInfo(exec, name);
      if info.Err? {
        return Err(info.error);
      }
      return Ok(PartitionScan(st.partitions + [PartitionFromUdev(name, size.value, info.value)], st.deviceSize, totalPartitionSize));
    } else if Lookup(props, "TYPE") == LVMType && HasCephLvmPrefix(name) {
      return Ok(st.(partitions := st.partitions + [Partition(name)]));
    }
    return Ok(st);
  }

  /** GetDevicePartitions: run lsblk on the device, then walk its lines in
      order, recording the device's own size, every partition of the device
      (with its udev label and filesystem) and every ceph logical volume. */
  method GetDevicePartitions(exec: Executor, device: string) returns (r: Result<PartitionInfo, GoError>)
    ensures r == DevicePartitions(exec, device)
  {
    var output := PartitionQuery(exec, device);
    if output.Err? {
      return Err(OtherError("failed to get device " + device + " partitions. " + ErrorText(output.error)));
    }
    var partInfo := Split(output.value, '\n');
    var st := PartitionScan([], 0, 0);
    for i := 0 to |partInfo|
      invariant ScanLines(exec, device, partInfo[..i]) == Ok(st)
    {
      var next := ScanPartitionLine(exec, device, st, partInfo[i]);
      ScanLinesStep(exec, device, partInfo, i, st);
      if next.Err? {
        r := Err(next.error);
        ScanErrorSticks(exec, device, partInfo, i + 1);
        return;
      }
      st := next.value;
    }
    assert partInfo[..|partInfo|] == partInfo;
    r := Ok(PartitionInfo(st.partitions, UnusedSpace(st)));
  }

  /** The scan of one more line continues from the scan of the lines before. */
  lemma ScanLinesStep(exec: Executor, device: string, lines: seq<string>, i: nat, st: PartitionScan)
    requires i < |lines| && ScanLines(exec, device, lines[..i]) == Ok(st)
    ensures ScanLines(exec, device, lines[..i + 1]) == ScanLine(exec, device, st, lines[i])
  {
    assert lines[..i + 1][..i] == lines[..i];
  }

  /** A line the scan gets through: a size that parses on the device's own
      line, and a size that parses and a udev query that succeeds on a
      partition line. */
  predicate LineSucceeds(exec: Executor, device: string, line: string)
  {
    var props := LineProps(line);
    (NamesDevice(line, device) ==> ParseUint64(Lookup(props, "SIZE")).Some?)
    && (IsPartitionLine(line, device) ==>
          ParseUint64(Lookup(props, "SIZE")).Some? && GetUdevInfo(exec, Lookup(props, "NAME")).Ok?)
  }

  /** What a successful line contributes, judged on that line alone: a
      partition of the device with its parsed size and the label and filesystem
      udev reports for it, a ceph logical volume by name only, or nothing. */
  function LineEntry(exec: Executor, device: string, line: string): seq<Partition>
    requires LineSucceeds(exec, device, line)
  {
    var props := LineProps(line);
    var name := Lookup(props, "NAME");
    if IsPartitionLine(line, device) then
      [PartitionFromUdev(name, ParseUint64(Lookup(props, "SIZE")).value, GetUdevInfo(exec, name).value)]
    else if IsCephLvLine(line, device) then [Partition(name)]
    else []
  }

  /** The entries of a sequence of successful lines, in line order. */
  function QualifyingEntries(exec: Executor, device: string, lines: seq<string>): seq<Partition>
    requires forall line :: line in lines ==> LineSucceeds(exec, device, line)
  {
    if lines == [] then []
    else
      var init := lines[..|lines| - 1];
      assert forall line :: line in init ==> line in lines;
      QualifyingEntries(exec, device, init) + LineEntry(exec, device, lines[|lines| - 1])
  }

  function SumSizes(ps: seq<Partition>): nat
  {
    if ps == [] then 0 else SumSizes(ps[..|ps| - 1]) + ps[|ps| - 1].size
  }

  lemma SumSizesAppend(ps: seq<Partition>, p: Partition)
    ensures SumSizes(ps + [p]) == SumSizes(ps) + p.size
  {
    assert (ps + [p])[..|ps|] == ps;
  }

  lemma ModAdd(a: nat, b: nat)
    ensures (a % Uint64Modulus + b) % Uint64Modulus == (a + b) % Uint64Modulus
  {
  }

  /** What the scan keeps true: entry sizes fit in a uint64 and the running
      total is their sum modulo 2^64. */
  predicate SizesAccounted(st: PartitionScan)
  {
    (forall p :: p in st.partitions ==> p.size <= MaxUint64)
    && st.totalPartitionSize == SumSizes(st.partitions) % Uint64Modulus
  }

  /** One line: it succeeds iff LineSucceeds holds, appends its entry, and
      keeps the sizes accounted. */
  lemma ScanLineStep(exec: Executor, device: string, st: PartitionScan, line: string)
    requires SizesAccounted(st)
    ensures ScanLine(exec, device, st, line).Ok? <==> LineSucceeds(exec, device, line)
    ensures LineSucceeds(exec, device, line) ==>
      var next := ScanLine(exec, device, st, line).value;
      SizesAccounted(next) && next.partitions == st.partitions + LineEntry(exec, device, line)
  {
    var props := LineProps(line);
    var name := Lookup(props, "NAME");
    if NamesDevice(line, device) {
      assert !IsPartitionLine(line, device) && !IsCephLvLine(line, device);
    } else if IsPartitionLine(line, device) {
      if LineSucceeds(exec, device, line) {
        PartitionLineStep(exec, device, st, line);
      }
    } else if IsCephLvLine(line, device) {
      var next := st.(partitions := st.partitions + [Partition(name)]);
      assert ScanLine(exec, device, st, line) == Ok(next);
      SumSizesAppend(st.partitions, Partition(name));
    } else {
      assert ScanLine(exec, device, st, line) == Ok(st);
    }
  }

  lemma PartitionLineStep(exec: Executor, device: string, st: PartitionScan, line: string)
    requires SizesAccounted(st)
    requires IsPartitionLine(line, device) && LineSucceeds(exec, device, line)
    ensures ScanLine(exec, device, st, line).Ok?
    ensures var next := ScanLine(exec, device, st, line).value;
      SizesAccounted(next) && next.partitions == st.partitions + LineEntry(exec, device, line)
  {
    var props := LineProps(line);
    var name := Lookup(props, "NAME");
    var size := ParseUint64(Lookup(props, "SIZE")).value;
    var p := PartitionFromUdev(name, size, GetUdevInfo(exec, name).value);
    var next := PartitionScan(st.partitions + [p], st.deviceSize, AddUint64(st.totalPartitionSize, size));
    assert ScanLine(exec, device, st, line) == Ok(next);
    SumSizesAppend(st.partitions, p);
    AccountedAppend(st, p);
  }

  /** Appending an entry whose size fits in a uint64 and adding its size to
      the running total keeps the sizes accounted. */
  lemma AccountedAppend(st: PartitionScan, p: Partition)
    requires SizesAccounted(st) && p.size <= MaxUint64
    ensures SizesAccounted(PartitionScan(st.partitions + [p], st.deviceSize, AddUint64(st.totalPartitionSize, p.size)))
  {
    var next := PartitionScan(st.partitions + [p], st.deviceSize, AddUint64(st.totalPartitionSize, p.size));
    SumSizesAppend(st.partitions, p);
    ModAdd(SumSizes(st.partitions), p.size);
    assert next.totalPartitionSize == (SumSizes(st.partitions) % Uint64Modulus + p.size) % Uint64Modulus;
    assert forall q :: q in next.partitions ==> q in st.partitions || q == p;
  }

  /** The scan succeeds iff every line succeeds; then its entries are exactly
      the entries of the lines taken one by one, in order, every partition size
      fits in a uint64, and the running total is the sum of the entry sizes
      modulo 2^64. */
  lemma {:induction false} ScanLinesOutcome(exec: Executor, device: string, lines: seq<string>)
    ensures ScanLines(exec, device, lines).Ok? <==> forall line :: line in lines ==> LineSucceeds(exec, device, line)
    ensures (forall line :: line in lines ==> LineSucceeds(exec, device, line)) ==>
      var st := ScanLines(exec, device, lines).value;
      st.partitions == QualifyingEntries(exec, device, lines) && SizesAccounted(st)
  {
    if lines != [] {
      var init := lines[..|lines| - 1];
      var last := lines[|lines| - 1];
      ScanLinesOutcome(exec, device, init);
      assert lines == init + [last];
      if ScanLines(exec, device, init).Ok? {
        ScanLineStep(exec, device, ScanLines(exec, device, init).value, last);
      }
    }
  }

  /** A successful line records the device size exactly when it names the device. */
  lemma ScanLineDeviceSize(exec: Executor, device: string, st: PartitionScan, line: string)
    requires ScanLine(exec, device, st, line).Ok?
    ensures NamesDevice(line, device) ==>
      ParseUint64(SizeColumn(line)) == Some(ScanLine(exec, device, st, line).value.deviceSize)
    ensures !NamesDevice(line, device) ==> ScanLine(exec, device, st, line).value.deviceSize == st.deviceSize
  {
  }

  /** A successful scan never records a size for the device unless some line
      names it, and records the size of the last such line. */
  lemma {:induction false} ScanDeviceSize(exec: Executor, device: string, lines: seq<string>, j: nat)
    requires ScanLines(exec, device, lines).Ok?
    requires j < |lines| && NamesDevice(lines[j], device)
    requires forall l :: j < l < |lines| ==> !NamesDevice(lines[l], device)
    ensures ParseUint64(SizeColumn(lines[j])) == Some(ScanLines(exec, device, lines).value.deviceSize)
  {
    var n := |lines| - 1;
    var init := lines[..n];
    var st := ScanLines(exec, device, init).value;
    ScanLinesStep(exec, device, lines, n, st);
    assert lines[..n + 1] == lines;
    ScanLineDeviceSize(exec, device, st, lines[n]);
    if j < n {
      assert forall l :: j < l < n ==> init[l] == lines[l];
      ScanDeviceSize(exec, device, init, j);
    }
  }

  /** Without a line naming the device, the recorded size stays 0. */
  lemma {:induction false} ScanNoDeviceLine(exec: Executor, device: string, lines: seq<string>)
    requires ScanLines(exec, device, lines).Ok?
    requires forall line :: line in lines ==> !NamesDevice(line, device)
    ensures ScanLines(exec, device, lines).value.deviceSize == 0
  {
    if lines != [] {
      var n := |lines| - 1;
      var init := lines[..n];
      assert forall line :: line in init ==> line in lines;
      ScanNoDeviceLine(exec, device, init);
      ScanLineDeviceSize(exec, device, ScanLines(exec, device, init).value, lines[n]);
    }
  }

  /** Unused space: 0 when no line names the device or its size is 0; otherwise
      its size minus the sum of the entry sizes, wrapping modulo 2^64, which is
      the plain difference when the entries fit. */
  lemma UnusedSpaceAccounting(exec: Executor, device: string, output: string, j: nat, info: PartitionInfo)
    requires PartitionQuery(exec, device) == Ok(output)
    requires DevicePartitions(exec, device) == Ok(info)
    requires j < |Split(output, '\n')| && NamesDevice(Split(output, '\n')[j], device)
    requires forall l :: j < l < |Split(output, '\n')| ==> !NamesDevice(Split(output, '\n')[l], device)
    ensures var size := ParseUint64(SizeColumn(Split(output, '\n')[j]));
      size.Some?
      && (size.value == 0 ==> info.unusedSpace == 0)
      && (size.value > 0 ==> info.unusedSpace == (size.value - SumSizes(info.partitions)) % Uint64Modulus)
      && (0 < size.value && SumSizes(info.partitions) <= size.value
          ==> info.unusedSpace == size.value - SumSizes(info.partitions))
  {
    var lines := Split(output, '\n');
    var st := ScanLines(exec, device, lines).value;
    assert info == PartitionInfo(st.partitions, UnusedSpace(st));
    ScanLinesOutcome(exec, device, lines);
    ScanDeviceSize(exec, device, lines, j);
    ScanUnusedSpace(st);
  }

  /** The unused space of an accounted scan, from the recorded size. */
  lemma ScanUnusedSpace(st: PartitionScan)
    requires SizesAccounted(st) && st.deviceSize < Uint64Modulus
    ensures st.deviceSize == 0 ==> UnusedSpace(st) == 0
    ensures st.deviceSize > 0 ==> UnusedSpace(st) == (st.deviceSize - SumSizes(st.partitions)) % Uint64Modulus
    ensures 0 < st.deviceSize && SumSizes(st.partitions) <= st.deviceSize
      ==> UnusedSpace(st) == st.deviceSize - SumSizes(st.partitions)
  {
    WrappedDifference(st.deviceSize, SumSizes(st.partitions), st.totalPartitionSize);
  }

  /** Subtracting a running total kept modulo 2^64 wraps like subtracting the
      true sum, and is exact when the sum fits. */
  lemma WrappedDifference(a: nat, total: nat, acc: nat)
    requires a < Uint64Modulus && acc == total % Uint64Modulus
    ensures SubUint64(a, acc) == (a - total) % Uint64Modulus
    ensures total <= a ==> SubUint64(a, acc) == a - total
  {
  }

  lemma NoDeviceLineNoUnusedSpace(exec: Executor, device: string, output: string)
    requires PartitionQuery(exec, device) == Ok(output)
    requires DevicePartitions(exec, device).Ok?
    requires forall line :: line in Split(output, '\n') ==> !NamesDevice(line, device)
    ensures DevicePartitions(exec, device).value.unusedSpace == 0
  {
    ScanNoDeviceLine(exec, device, Split(output, '\n'));
  }
}
