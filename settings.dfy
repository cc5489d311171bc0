/** Benchmark settings (pkg/server/settings.go): the decoded YAML is taken as
    given; what is modelled is the validation and defaulting that follows it. */
module Settings {
  import opened Wrappers
  import opened Exec

  /** FioSettings: the dimensions of the test matrix and the per-run options. */
  datatype FioSettings = FioSettings(
    numJobs: seq<int>,
    ioEngine: string,
    direct: bool,
    verify: bool,
    blockSize: seq<string>,
    runtime: nat,
    ioDepth: seq<int>,
    rw: seq<string>,
    fileName: seq<string>)

  /** TestSettings: a missing `fio_settings` section decodes to a nil pointer. */
  datatype TestSettings = TestSettings(fioSettings: Option<FioSettings>, useAllDisks: bool, workers: int)

  /** What ParseSettings yields: the settings, an error, or the nil dereference
      at settings.go:38 when `fio_settings` is missing and use_all_disks is off. */
  datatype Parsed = Parsed(settings: TestSettings) | ParseFailed(error: GoError) | NilSettingsPanic

  const NoTargetsMessage: string := "filename or userAllDisks should be specified"
  const NoFioSettingsMessage: string := "fio parameters should be specified"

  /** ParseSettings after reading and decoding: `decoded` is the read or decode
      error, or the decoded settings. */
  function ParseSettings(decoded: Result<TestSettings, GoError>): (r: Parsed)
    ensures decoded.Err? ==> r == ParseFailed(decoded.error)
    ensures decoded.Ok? ==>
      var s := decoded.value;
      (r.NilSettingsPanic? <==> !s.useAllDisks && s.fioSettings.None?)
      && (r.ParseFailed? <==> (!s.useAllDisks && s.fioSettings.Some? && |s.fioSettings.value.fileName| == 0)
                              || (s.useAllDisks && s.fioSettings.None?))
      && (r.Parsed? ==> r.settings.fioSettings.Some? && (r.settings.useAllDisks || |r.settings.fioSettings.value.fileName| > 0))
  {
    match decoded
    case Err(e) => ParseFailed(e)
    case Ok(settings) =>
      if !settings.useAllDisks && settings.fioSettings.None? then NilSettingsPanic
      else if !settings.useAllDisks && |settings.fioSettings.value.fileName| == 0 then
        ParseFailed(OtherError(NoTargetsMessage))
      else if settings.fioSettings.None? then ParseFailed(OtherError(NoFioSettingsMessage))
      else if settings.workers <= 0 then Parsed(settings.(workers := 1))
      else Parsed(settings)
  }

  /** Accepted settings keep every decoded field except that a non-positive
      worker count becomes 1; so the worker count is always positive. */
  lemma ParsedSettingsDefaults(decoded: Result<TestSettings, GoError>)
    requires ParseSettings(decoded).Parsed?
    ensures decoded.Ok?
    ensures var s := decoded.value; var t := ParseSettings(decoded).settings;
      t.fioSettings == s.fioSettings && t.useAllDisks == s.useAllDisks
      && t.workers >= 1
      && (s.workers > 0 ==> t.workers == s.workers)
      && (s.workers <= 0 ==> t.workers == 1)
  {
  }

  /** The error messages of the two rejections. */
  lemma ParseSettingsMessages(s: TestSettings)
    ensures !s.useAllDisks && s.fioSettings.Some? && |s.fioSettings.value.fileName| == 0 ==>
      ParseSettings(Ok(s)) == ParseFailed(OtherError(NoTargetsMessage))
    ensures s.useAllDisks && s.fioSettings.None? ==>
      ParseSettings(Ok(s)) == ParseFailed(OtherError(NoFioSettingsMessage))
  {
  }
}
