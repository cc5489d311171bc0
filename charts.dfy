/** The generate-charts command (cmd/charts.go): CSV records of an earlier
    run decoded back into fio jobs, their distinct numjobs values collected,
    and both handed to RenderCharts. */
module Charts {
  import opened Wrappers
  import opened Strings
  import opened Exec
  import opened Client

  const MissingCsvMessage: string := "CSV file should be specified"
  const InvalidCsvMessage: string := "Invalid csv format"
  /** The columns of a record: filename, rw, numjobs, runtime, direct, bs,
      iodepth, twelve metrics, ioengine, verify. */
  const CsvColumns: nat := 21

  /** The job a data record describes; the metric columns are left out. */
  function RecordJob(record: seq<string>): (job: FioJob)
    requires |record| == CsvColumns
    ensures job.jobName == record[0] && job.options.fileName == record[0]
    ensures job.options.rw == record[1] && job.options.numJobs == record[2]
    ensures job.options.runtime == record[3] && job.options.direct == record[4]
    ensures job.options.blockSize == record[5] && job.options.ioDepth == record[6]
    ensures job.options.ioEngine == record[19] && job.options.verify == record[20]
    ensures job.options.name == ""
  {
    FioJob(record[0], JobOptions(
      fileName := record[0],
      numJobs := record[2],
      runtime := record[3],
      ioEngine := record[19],
      direct := record[4],
      verify := record[20],
      blockSize := record[5],
      ioDepth := record[6],
      rw := record[1]))
  }

  /** The numjobs column as generate reads it: strconv.ParseInt(_, 10, 32)
      with its error ignored. */
  function RecordNumJobs(record: seq<string>): int
    requires |record| == CsvColumns
  {
    ParseInt(record[2], 32).value
  }

  /** The value read is a 32-bit integer: the column's value when it is a
      decimal numeral (optionally signed) in range, the bound of its sign when
      it is a numeral out of range, and 0 when it is no numeral at all. */
  lemma RecordNumJobsValue(record: seq<string>)
    requires |record| == CsvColumns
    ensures var n := RecordNumJobs(record);
      -0x8000_0000 <= n < 0x8000_0000
      && (AllDigits(record[2]) && |record[2]| > 0 && DigitsValue(record[2]) < 0x8000_0000 ==>
            n == DigitsValue(record[2]))
      && ((record[2] == [] || !AllDigits(if record[2][0] == '-' || record[2][0] == '+' then record[2][1..] else record[2]))
          ==> n == 0)
    ensures !IsNumeral(record[2]) ==> RecordNumJobs(record) == 0
    ensures IsNumeral(record[2]) && -0x8000_0000 <= NumeralValue(record[2]) < 0x8000_0000 ==>
              RecordNumJobs(record) == NumeralValue(record[2])
    ensures IsNumeral(record[2]) && NumeralValue(record[2]) >= 0x8000_0000 ==>
              RecordNumJobs(record) == 0x7FFF_FFFF
    ensures IsNumeral(record[2]) && NumeralValue(record[2]) < -0x8000_0000 ==>
              RecordNumJobs(record) == -0x8000_0000
  {
  }

  /** The data records decoded in order: the jobs, or the error of the first
      record without exactly 21 columns. */
  function DecodeRows(rows: seq<seq<string>>): Result<seq<FioJob>, GoError>
  {
    if rows == [] then Ok([])
    else
      var n := |rows| - 1;
      match DecodeRows(rows[..n])
      case Err(e) => Err(e)
      case Ok(jobs) =>
        if |rows[n]| != CsvColumns then Err(OtherError(InvalidCsvMessage))
        else Ok(jobs + [RecordJob(rows[n])])
  }

  /** Decoding succeeds iff every data record has 21 columns, and then yields
      exactly one job per record, in record order. */
  lemma {:induction false} DecodeRowsJobs(rows: seq<seq<string>>)
    ensures DecodeRows(rows).Ok? <==> forall i :: 0 <= i < |rows| ==> |rows[i]| == CsvColumns
    ensures DecodeRows(rows).Err? ==> DecodeRows(rows).error == OtherError(InvalidCsvMessage)
    ensures DecodeRows(rows).Ok? ==>
      |DecodeRows(rows).value| == |rows|
      && forall i :: 0 <= i < |rows| ==> |rows[i]| == CsvColumns && DecodeRows(rows).value[i] == RecordJob(rows[i])
  {
    if rows != [] {
      var n := |rows| - 1;
      DecodeRowsJobs(rows[..n]);
      assert forall i :: 0 <= i < n ==> rows[..n][i] == rows[i];
    }
  }

  /** The distinct numjobs values of well-formed data records. */
  function NumJobsOf(rows: seq<seq<string>>): set<int>
  {
    if rows == [] then {}
    else
      var n := |rows| - 1;
      NumJobsOf(rows[..n]) + (if |rows[n]| == CsvColumns then {RecordNumJobs(rows[n])} else {})
  }

  /** Record `i` is well formed and carries numjobs value `x`. */
  predicate CarriesNumJobs(rows: seq<seq<string>>, i: int, x: int)
  {
    0 <= i < |rows| && |rows[i]| == CsvColumns && RecordNumJobs(rows[i]) == x
  }

  /** A value is collected iff some well-formed record carries it. */
  lemma {:induction false} NumJobsMembers(rows: seq<seq<string>>, x: int)
    ensures x in NumJobsOf(rows) <==> exists i :: CarriesNumJobs(rows, i, x)
  {
    if rows != [] {
      var n := |rows| - 1;
      var prefix := rows[..n];
      var last := |rows[n]| == CsvColumns && RecordNumJobs(rows[n]) == x;
      assert x in NumJobsOf(rows) <==> x in NumJobsOf(prefix) || last;
      NumJobsMembers(prefix, x);
      if x in NumJobsOf(rows) {
        if last {
          assert CarriesNumJobs(rows, n, x);
        } else {
          var i :| CarriesNumJobs(prefix, i, x);
          assert prefix[i] == rows[i];
          assert CarriesNumJobs(rows, i, x);
        }
      }
      if exists i :: CarriesNumJobs(rows, i, x) {
        var i :| CarriesNumJobs(rows, i, x);
        if i < n {
          assert prefix[i] == rows[i];
          assert CarriesNumJobs(prefix, i, x);
        }
      }
    }
  }

  /** Once a prefix of the data records fails to decode, so do all of them. */
  lemma {:induction false} DecodeErrorSticks(rows: seq<seq<string>>, k: nat)
    requires k <= |rows| && DecodeRows(rows[..k]).Err?
    ensures DecodeRows(rows) == DecodeRows(rows[..k])
    decreases |rows| - k
  {
    if k < |rows| {
      var n := |rows| - 1;
      assert rows[..n][..k] == rows[..k];
      DecodeErrorSticks(rows[..n], k);
      assert rows[..|rows|] == rows;
    } else {
      assert rows[..k] == rows;
    }
  }

  /** No value occurs twice. */
  predicate Distinct(s: seq<int>)
  {
    forall i, j :: 0 <= i < j < |s| ==> s[i] != s[j]
  }

  /** The record loop (charts.go:44-119): the first record is the header. The
      numjobs values are kept distinct, in order of first appearance (one of
      the orders a Go map may be enumerated in). */
  method DecodeRecords(records: seq<seq<string>>) returns (r: Result<seq<FioJob>, GoError>, numJobs: seq<int>)
    ensures r == DecodeRows(if records == [] then [] else records[1..])
    ensures r.Ok? ==> Distinct(numJobs)
                      && forall x :: x in numJobs <==> x in NumJobsOf(if records == [] then [] else records[1..])
  {
    var jobs: seq<FioJob> := [];
    numJobs := [];
    ghost var rows := if records == [] then [] else records[1..];
    for i := 0 to |records|
      invariant i > 0 ==> DecodeRows(rows[..i - 1]) == Ok(jobs)
                          && forall x :: x in numJobs <==> x in NumJobsOf(rows[..i - 1])
      invariant i == 0 ==> jobs == [] && numJobs == []
      invariant Distinct(numJobs)
    {
      if i == 0 {
        assert rows[..0] == [];
        continue;
      }
      var record := records[i];
      assert rows[i - 1] == record;
      assert rows[..i][..i - 1] == rows[..i - 1];
      if |record| != CsvColumns {
        DecodeErrorSticks(rows, i);
        return Err(OtherError(InvalidCsvMessage)), numJobs;
      }
      var n := RecordNumJobs(record);
      if n !in numJobs {
        numJobs := numJobs + [n];
      }
      jobs := jobs + [RecordJob(record)];
    }
    if records != [] {
      assert rows[..|records| - 1] == rows;
    }
    r := Ok(jobs);
  }

  /** Strictly increasing. */
  predicate Increasing(s: seq<int>)
  {
    forall i, j :: 0 <= i < j < |s| ==> s[i] < s[j]
  }

  /** A sorted sequence without repetitions is determined by its elements: the
      sorted numjobs list does not depend on the set's iteration order. */
  lemma {:induction false} IncreasingUnique(s: seq<int>, t: seq<int>)
    requires Increasing(s) && Increasing(t)
    requires forall x :: x in s <==> x in t
    ensures s == t
    decreases |s|
  {
    if s == [] {
      if t != [] {
        assert false;
      }
    } else {
      assert s[0] in s;
      assert s[0] in t;
      var j :| 0 <= j < |t| && t[j] == s[0];
      assert t[0] in t;
      assert t[0] in s;
      var k :| 0 <= k < |s| && s[k] == t[0];
      assert s[0] <= s[k] && t[0] <= t[j];
      assert s[0] == t[0];
      forall x ensures x in s[1..] <==> x in t[1..] {
        if x in s[1..] {
          var k :| 0 <= k < |s| - 1 && s[1..][k] == x;
          assert s[k + 1] == x && s[0] < s[k + 1];
          assert x in t;
        }
        if x in t[1..] {
          var k :| 0 <= k < |t| - 1 && t[1..][k] == x;
          assert t[k + 1] == x && t[0] < t[k + 1];
          assert x in s;
        }
      }
      IncreasingUnique(s[1..], t[1..]);
      assert s == [s[0]] + s[1..];
      assert t == [t[0]] + t[1..];
    }
  }

  /** Sorting a sequence without repetitions leaves it strictly increasing. */
  lemma SortedDistinctIncreasing(s: seq<int>, t: seq<int>)
    requires SortedInts(t) && multiset(t) == multiset(s)
    requires Distinct(s)
    ensures Increasing(t)
  {
    forall x ensures multiset(t)[x] <= 1 {
      DistinctCount(s, x);
    }
    CountDistinct(t);
  }

  lemma {:induction false} DistinctCount(s: seq<int>, x: int)
    requires Distinct(s)
    ensures multiset(s)[x] <= 1
  {
    if s != [] {
      var n := |s| - 1;
      assert s == s[..n] + [s[n]];
      DistinctCount(s[..n], x);
      if s[n] == x {
        assert x !in s[..n];
      }
    }
  }

  lemma {:induction false} CountDistinct(t: seq<int>)
    requires forall x :: multiset(t)[x] <= 1
    ensures Distinct(t)
  {
    if t != [] {
      var n := |t| - 1;
      assert t == t[..n] + [t[n]];
      assert multiset(t) == multiset(t[..n]) + multiset{t[n]};
      forall x ensures multiset(t[..n])[x] <= 1 {
        assert multiset(t)[x] == multiset(t[..n])[x] + multiset{t[n]}[x];
      }
      CountDistinct(t[..n]);
      assert multiset(t)[t[n]] == multiset(t[..n])[t[n]] + 1;
      assert t[n] !in multiset(t[..n]);
      forall i | 0 <= i < n ensures t[i] != t[n] {
        assert t[..n][i] == t[i];
      }
    }
  }

  /** What generate returns: nil or an error; on success also what it handed
      to RenderCharts, with the chart file's name. */
  datatype Generated =
    | GenerateFailed(error: GoError)
    | Charted(results: seq<FioResult>, numJobs: seq<int>, buckets: map<BucketKey, seq<FioJob>>,
              fileName: string, renderError: Option<GoError>)

  /** generate: no CSV file is an error before anything is read; `read` is
      opening and reading the file; every data record must have 21 columns;
      the jobs go to RenderCharts as one result with the sorted numjobs. */
  method Generate(csvFile: string, read: string -> Result<seq<seq<string>>, GoError>, chartFile: string,
                  uuid: string, writeChart: string -> Option<GoError>)
    returns (r: Generated)
    ensures csvFile == "" ==> r == GenerateFailed(OtherError(MissingCsvMessage))
    ensures csvFile != "" && read(csvFile).Err? ==> r == GenerateFailed(read(csvFile).error)
    ensures csvFile != "" && read(csvFile).Ok? ==>
      var records := read(csvFile).value;
      var rows := if records == [] then [] else records[1..];
      (DecodeRows(rows).Err? ==> r == GenerateFailed(DecodeRows(rows).error))
      && (DecodeRows(rows).Ok? ==>
            r.Charted?
            && r.results == [FioResult(DecodeRows(rows).value)]
            && Increasing(r.numJobs) && (forall x :: x in r.numJobs <==> x in NumJobsOf(rows))
            && r.buckets == Buckets(DecodeRows(rows).value)
            && r.fileName == ChartFileName(chartFile, uuid)
            && r.renderError == writeChart(r.fileName))
  {
    if csvFile == "" {
      return GenerateFailed(OtherError(MissingCsvMessage));
    }
    var records := read(csvFile);
    if records.Err? {
      return GenerateFailed(records.error);
    }
    var decoded, distinct := DecodeRecords(records.value);
    if decoded.Err? {
      return GenerateFailed(decoded.error);
    }
    var results := [FioResult(decoded.value)];
    var numJobs := new int[|distinct|](i requires 0 <= i < |distinct| => distinct[i]);
    assert numJobs[..] == distinct;
    ghost var unsorted := numJobs[..];
    var buckets, fileName, err := RenderCharts(results, numJobs, chartFile, uuid, writeChart);
    SortedDistinctIncreasing(unsorted, numJobs[..]);
    forall x ensures x in numJobs[..] <==> x in distinct {
      assert x in numJobs[..] <==> x in multiset(numJobs[..]);
      assert x in unsorted <==> x in multiset(unsorted);
    }
    assert AllJobs(results) == decoded.value by {
      assert results[..0] == [];
    }
    r := Charted(results, numJobs[..], buckets, fileName, err);
  }

  /** The numjobs list handed over is the same whatever order the set was
      enumerated in. */
  lemma GeneratedNumJobsDetermined(s: seq<int>, t: seq<int>, rows: seq<seq<string>>)
    requires Increasing(s) && (forall x :: x in s <==> x in NumJobsOf(rows))
    requires Increasing(t) && (forall x :: x in t <==> x in NumJobsOf(rows))
    ensures s == t
  {
    IncreasingUnique(s, t);
  }
}
