/**
 * The replication driver: provision the destination bucket, enumerate the
 * (taxi kind, year, month) catalogue, download every file once, drop the
 * failed downloads, and upload each survivor with bounded retry and
 * post-upload verification.
 *
 * Every call into the network, the object store or the filesystem is an
 * input here: the outcome of `get_bucket` and the project's bucket ids, a
 * predicate saying which tasks `urlretrieve` fetches, and, per file, the
 * outcome of each upload attempt. The thread pools become sequential,
 * order-preserving maps, which is what `Executor.map` promises of its results.
 */
module LoadTaxi {
  import opened Wrappers
  import opened Collections
  import Decimal
  import PosixPath

  // ---------------------------------------------------------------- configuration

  const BUCKET_NAME := "michelle-masters-nytaxi-2019-2020"
  const BUCKET_LOCATION := "US-CENTRAL1"
  const BASE_URL := "https://github.com/DataTalksClub/nyc-tlc-data/releases/download"
  const TAXI_TYPES: seq<string> := ["yellow", "green"]
  const YEARS: seq<string> := ["2019", "2020"]
  /** `[f"{i:02d}" for i in range(1, 13)]` */
  const MONTHS: seq<string> := seq(12, i requires 0 <= i < 12 => Decimal.Pad2(i + 1))
  const DOWNLOAD_DIR := "./data"
  /** Default `max_retries` of `upload_to_gcs`. */
  const RETRIES := 3

  /** MONTHS spelled out: "01" through "12". */
  lemma MonthsLiteral()
    ensures MONTHS == ["01", "02", "03", "04", "05", "06", "07", "08", "09", "10", "11", "12"]
  {
    forall n | 1 <= n < 10
      ensures Decimal.Pad2(n) == ['0', Decimal.DigitChar(n)]
    {
    }
    forall n | 10 <= n < 13
      ensures Decimal.Pad2(n) == ['1', Decimal.DigitChar(n - 10)]
    {
      assert Decimal.NatToString(n / 10) == ['1'];
    }
  }

  /** MONTHS holds twelve two-digit strings whose values climb from 1 to 12. */
  lemma MonthsZeroPadded()
    ensures |MONTHS| == 12
    ensures forall i :: 0 <= i < 12 ==>
      |MONTHS[i]| == 2 && Decimal.AllDigits(MONTHS[i]) && Decimal.ParseNat(MONTHS[i]) == i + 1
    ensures forall i, j :: 0 <= i < j < 12 ==> Decimal.ParseNat(MONTHS[i]) < Decimal.ParseNat(MONTHS[j])
  {
    forall i | 0 <= i < 12
      ensures |MONTHS[i]| == 2 && Decimal.AllDigits(MONTHS[i]) && Decimal.ParseNat(MONTHS[i]) == i + 1
    {
      Decimal.Pad2TwoDigits(i + 1);
    }
  }

  // ---------------------------------------------------------------- task enumeration

  /** One replication task: which file of which kind, year and month to copy. */
  datatype Task = Task(kind: string, year: string, month: string)

  /** The tasks of one kind and one year, month by month. */
  function MonthTasks(kind: string, year: string, months: seq<string>): seq<Task>
  {
    seq(|months|, i requires 0 <= i < |months| => Task(kind, year, months[i]))
  }

  /** The month blocks of one kind, one per year. */
  function YearBlocks(kind: string, years: seq<string>, months: seq<string>): seq<seq<Task>>
  {
    seq(|years|, y requires 0 <= y < |years| => MonthTasks(kind, years[y], months))
  }

  /** The tasks of one kind, year by year and within a year month by month. */
  function YearTasks(kind: string, years: seq<string>, months: seq<string>): seq<Task>
  {
    Flatten(YearBlocks(kind, years, months))
  }

  /** The year blocks, one per kind. */
  function KindBlocks(kinds: seq<string>, years: seq<string>, months: seq<string>): seq<seq<Task>>
  {
    seq(|kinds|, k requires 0 <= k < |kinds| => YearTasks(kinds[k], years, months))
  }

  /** `[(t, y, m) for t in kinds for y in years for m in months]`. */
  function Tasks(kinds: seq<string>, years: seq<string>, months: seq<string>): seq<Task>
  {
    Flatten(KindBlocks(kinds, years, months))
  }

  lemma {:induction false} YearTasksLength(kind: string, years: seq<string>, months: seq<string>)
    ensures Uniform(YearBlocks(kind, years, months), |months|)
    ensures |YearTasks(kind, years, months)| == BlockStart(|years|, |months|)
  {
    FlattenLength(YearBlocks(kind, years, months), |months|);
  }

  lemma KindBlocksUniform(kinds: seq<string>, years: seq<string>, months: seq<string>)
    ensures Uniform(KindBlocks(kinds, years, months), BlockStart(|years|, |months|))
  {
    forall k | 0 <= k < |kinds|
      ensures |KindBlocks(kinds, years, months)[k]| == BlockStart(|years|, |months|)
    {
      YearTasksLength(kinds[k], years, months);
    }
  }

  /** There are |kinds|·|years|·|months| tasks. */
  lemma TasksLength(kinds: seq<string>, years: seq<string>, months: seq<string>)
    ensures |Tasks(kinds, years, months)| == |kinds| * (|years| * |months|)
  {
    KindBlocksUniform(kinds, years, months);
    FlattenLength(KindBlocks(kinds, years, months), BlockStart(|years|, |months|));
    BlockStartIsProduct(|years|, |months|);
    BlockStartIsProduct(|kinds|, BlockStart(|years|, |months|));
  }

  /**
   * The task list is the full cross product, kind outermost, month innermost:
   * the task for the kind at `k`, the year at `y` and the month at `m` sits
   * `k` kind blocks and `y` year blocks in, at `m`. `RowMajor` turns the
   * position into (k·|years| + y)·|months| + m.
   */
  lemma TasksAt(kinds: seq<string>, years: seq<string>, months: seq<string>, k: nat, y: nat, m: nat)
    requires k < |kinds| && y < |years| && m < |months|
    ensures BlockStart(BlockStart(k, |years|) + y, |months|) + m < |Tasks(kinds, years, months)|
    ensures Tasks(kinds, years, months)[BlockStart(BlockStart(k, |years|) + y, |months|) + m]
      == Task(kinds[k], years[y], months[m])
  {
    var block := BlockStart(|years|, |months|);
    var inner := BlockStart(y, |months|) + m;
    assert inner < block && YearTasks(kinds[k], years, months)[inner] == Task(kinds[k], years[y], months[m]) by {
      YearTasksLength(kinds[k], years, months);
      FlattenAt(YearBlocks(kinds[k], years, months), |months|, y, m);
    }
    KindBlocksUniform(kinds, years, months);
    FlattenAt(KindBlocks(kinds, years, months), block, k, inner);
    assert BlockStart(BlockStart(k, |years|) + y, |months|) + m == BlockStart(k, block) + inner by {
      BlockStartNested(k, |years|, |months|);
      BlockStartSplit(BlockStart(k, |years|), y, |months|);
    }
  }

  /** The block-wise position is the row-major one. */
  lemma RowMajor(k: nat, n: nat, w: nat, y: nat, m: nat)
    ensures BlockStart(BlockStart(k, n) + y, w) + m == (k * n + y) * w + m
  {
    BlockStartIsProduct(k, n);
    BlockStartIsProduct(BlockStart(k, n) + y, w);
  }

  lemma InMonthTasks(t: Task, kind: string, year: string, months: seq<string>)
    ensures t in MonthTasks(kind, year, months) <==> t.kind == kind && t.year == year && t.month in months
  {
    if t.kind == kind && t.year == year && t.month in months {
      var m :| 0 <= m < |months| && months[m] == t.month;
      assert MonthTasks(kind, year, months)[m] == t;
    }
  }

  lemma InYearTasks(t: Task, kind: string, years: seq<string>, months: seq<string>)
    ensures t in YearTasks(kind, years, months) <==> t.kind == kind && t.year in years && t.month in months
  {
    var blocks := YearBlocks(kind, years, months);
    InFlatten(blocks, t);
    if t in YearTasks(kind, years, months) {
      var y :| 0 <= y < |blocks| && t in blocks[y];
      InMonthTasks(t, kind, years[y], months);
    }
    if t.kind == kind && t.year in years && t.month in months {
      var y :| 0 <= y < |years| && years[y] == t.year;
      InMonthTasks(t, kind, years[y], months);
      assert t in blocks[y];
    }
  }

  /** A triple is enumerated exactly when each of its parts is configured. */
  lemma InTasks(t: Task, kinds: seq<string>, years: seq<string>, months: seq<string>)
    ensures t in Tasks(kinds, years, months) <==> t.kind in kinds && t.year in years && t.month in months
  {
    var blocks := KindBlocks(kinds, years, months);
    InFlatten(blocks, t);
    if t in Tasks(kinds, years, months) {
      var k :| 0 <= k < |blocks| && t in blocks[k];
      InYearTasks(t, kinds[k], years, months);
    }
    if t.kind in kinds && t.year in years && t.month in months {
      var k :| 0 <= k < |kinds| && kinds[k] == t.kind;
      InYearTasks(t, kinds[k], years, months);
      assert t in blocks[k];
    }
  }

  lemma YearTasksNoDup(kind: string, years: seq<string>, months: seq<string>)
    requires NoDup(years) && NoDup(months)
    ensures NoDup(YearTasks(kind, years, months))
  {
    var blocks := YearBlocks(kind, years, months);
    forall y, l, x | 0 <= y < l < |blocks| && x in blocks[y]
      ensures x !in blocks[l]
    {
      InMonthTasks(x, kind, years[y], months);
      InMonthTasks(x, kind, years[l], months);
    }
    FlattenNoDup(blocks);
  }

  /** Duplicate-free configuration lists give a duplicate-free task list. */
  lemma TasksNoDup(kinds: seq<string>, years: seq<string>, months: seq<string>)
    requires NoDup(kinds) && NoDup(years) && NoDup(months)
    ensures NoDup(Tasks(kinds, years, months))
  {
    var blocks := KindBlocks(kinds, years, months);
    forall k | 0 <= k < |blocks|
      ensures NoDup(blocks[k])
    {
      YearTasksNoDup(kinds[k], years, months);
    }
    forall k, l, x | 0 <= k < l < |blocks| && x in blocks[k]
      ensures x !in blocks[l]
    {
      InYearTasks(x, kinds[k], years, months);
      InYearTasks(x, kinds[l], years, months);
    }
    FlattenNoDup(blocks);
  }

  /** The twelve month strings are distinct. */
  lemma MonthsDistinct()
    ensures NoDup(MONTHS)
  {
    MonthsZeroPadded();
  }

  /** The configured lists give 48 tasks, none of them twice. */
  lemma ConfiguredTaskCount()
    ensures |Tasks(TAXI_TYPES, YEARS, MONTHS)| == 48
    ensures NoDup(Tasks(TAXI_TYPES, YEARS, MONTHS))
  {
    MonthsDistinct();
    TasksLength(TAXI_TYPES, YEARS, MONTHS);
    TasksNoDup(TAXI_TYPES, YEARS, MONTHS);
  }

  /** The first task is yellow taxis for January 2019 and the last green taxis for December 2020. */
  lemma ConfiguredTaskEnds()
    ensures |Tasks(TAXI_TYPES, YEARS, MONTHS)| == 48
    ensures Tasks(TAXI_TYPES, YEARS, MONTHS)[0] == Task("yellow", "2019", "01")
    ensures Tasks(TAXI_TYPES, YEARS, MONTHS)[47] == Task("green", "2020", "12")
  {
    TasksLength(TAXI_TYPES, YEARS, MONTHS);
    assert MONTHS[0] == "01" by {
      assert MONTHS[0] == Decimal.Pad2(1);
    }
    assert MONTHS[11] == "12" by {
      assert MONTHS[11] == Decimal.Pad2(12);
      assert Decimal.NatToString(12) == "12";
    }
    assert Tasks(TAXI_TYPES, YEARS, MONTHS)[0] == Task(TAXI_TYPES[0], YEARS[0], MONTHS[0]) by {
      TasksAt(TAXI_TYPES, YEARS, MONTHS, 0, 0, 0);
    }
    assert Tasks(TAXI_TYPES, YEARS, MONTHS)[47] == Task(TAXI_TYPES[1], YEARS[1], MONTHS[11]) by {
      TasksAt(TAXI_TYPES, YEARS, MONTHS, 1, 1, 11);
      RowMajor(1, |YEARS|, |MONTHS|, 1, 11);
    }
  }

  // ---------------------------------------------------------------- naming

  /** The release file name, e.g. `yellow_tripdata_2019-01.csv.gz`. */
  function FileName(t: Task): string
  {
    t.kind + "_tripdata_" + t.year + "-" + t.month + ".csv.gz"
  }

  /** The download URL: the base URL, then the kind, then the file name. */
  function Url(t: Task): string
  {
    BASE_URL + "/" + t.kind + "/" + FileName(t)
  }

  /** Where the download lands: `os.path.join(DOWNLOAD_DIR, fname)`. */
  function LocalPath(t: Task): string
  {
    PosixPath.Join(DOWNLOAD_DIR, FileName(t))
  }

  predicate SlashFree(t: Task)
  {
    '/' !in t.kind && '/' !in t.year && '/' !in t.month
  }

  /** A task whose fields hold no '/' has a slash-free file name. */
  lemma FileNameSlashFree(t: Task)
    requires SlashFree(t)
    ensures '/' !in FileName(t)
  {
    assert FileName(t) == t.kind + ("_tripdata_" + t.year + "-" + t.month + ".csv.gz");
    assert '/' !in "_tripdata_" + t.year + "-" + t.month + ".csv.gz";
  }

  /**
   * For a task whose fields hold no '/', the last segment of the URL and the
   * base name of the local path (the blob name) are both the file name.
   */
  lemma NamesAgree(t: Task)
    requires SlashFree(t)
    ensures PosixPath.Basename(Url(t)) == FileName(t)
    ensures PosixPath.Basename(LocalPath(t)) == FileName(t)
  {
    var f := FileName(t);
    FileNameSlashFree(t);
    assert Url(t) == (BASE_URL + "/" + t.kind + "/") + f;
    PosixPath.BasenameAfterSlash(BASE_URL + "/" + t.kind + "/", f);
    PosixPath.BasenameOfJoin(DOWNLOAD_DIR, f);
  }

  /** The example of the release layout. */
  lemma FileNameExample()
    ensures FileName(Task("yellow", "2019", "01")) == "yellow_tripdata_2019-01.csv.gz"
  {
    assert "yellow" + "_tripdata_" + "2019" == "yellow_tripdata_2019";
    assert "yellow_tripdata_2019" + "-" + "01" == "yellow_tripdata_2019-01";
  }

  /** Tasks whose years and months have equal widths never share a file name. */
  lemma FileNameInjective(t1: Task, t2: Task)
    requires |t1.year| == |t2.year| && |t1.month| == |t2.month|
    ensures FileName(t1) == FileName(t2) ==> t1 == t2
  {
    var f1, f2 := FileName(t1), FileName(t2);
    if f1 == f2 {
      var k := |t1.kind|;
      assert |t2.kind| == k;
      assert t1.kind == f1[..k] == f2[..k] == t2.kind;
      var ys := k + 10;
      assert t1.year == f1[ys..ys + |t1.year|] == f2[ys..ys + |t2.year|] == t2.year;
      var ms := ys + |t1.year| + 1;
      assert t1.month == f1[ms..ms + |t1.month|] == f2[ms..ms + |t2.month|] == t2.month;
    }
  }

  /** Tasks whose years and months have equal widths never share a local path. */
  lemma LocalPathInjective(t1: Task, t2: Task)
    requires |t1.year| == |t2.year| && |t1.month| == |t2.month|
    ensures LocalPath(t1) == LocalPath(t2) ==> t1 == t2
  {
    PosixPath.JoinInjective(DOWNLOAD_DIR, FileName(t1), FileName(t2));
    FileNameInjective(t1, t2);
  }

  // ---------------------------------------------------------------- download phase

  /**
   * `download_file`: the local path when `urlretrieve` returns, `None` when it
   * raises. There is no retry: one outcome decides.
   */
  function DownloadFile(t: Task, retrieved: bool): (r: Option<string>)
    ensures r.Some? <==> retrieved
    ensures r.Some? ==> r.value == LocalPath(t)
  {
    if retrieved then Some(LocalPath(t)) else None
  }

  /** The download round: `ex.map(download_file, tasks)`, one outcome per task, in task order. */
  function DownloadAll(tasks: seq<Task>, retrieved: Task -> bool): (r: seq<Option<string>>)
    ensures |r| == |tasks|
    ensures forall i :: 0 <= i < |tasks| ==> r[i] == DownloadFile(tasks[i], retrieved(tasks[i]))
  {
    seq(|tasks|, i requires 0 <= i < |tasks| => DownloadFile(tasks[i], retrieved(tasks[i])))
  }

  /** `[p for p in file_paths if p is not None]`. */
  function Successful(paths: seq<Option<string>>): (r: seq<string>)
    ensures |r| <= |paths|
    ensures forall p :: p in r <==> Some(p) in paths
  {
    if paths == [] then []
    else (if paths[0].Some? then [paths[0].value] else []) + Successful(paths[1..])
  }

  /** The tasks whose download succeeded, in task order. */
  function RetrievedTasks(tasks: seq<Task>, retrieved: Task -> bool): (r: seq<Task>)
    ensures forall t :: t in r <==> t in tasks && retrieved(t)
  {
    if tasks == [] then []
    else (if retrieved(tasks[0]) then [tasks[0]] else []) + RetrievedTasks(tasks[1..], retrieved)
  }

  /**
   * The upload inputs are exactly the local paths of the retrieved tasks, in
   * task order, and there are no more of them than there are tasks.
   */
  lemma {:induction false} UploadInputsAreRetrievedPaths(tasks: seq<Task>, retrieved: Task -> bool)
    ensures var inputs := Successful(DownloadAll(tasks, retrieved));
      var done := RetrievedTasks(tasks, retrieved);
      |inputs| == |done| <= |tasks| &&
      forall i :: 0 <= i < |inputs| ==> inputs[i] == LocalPath(done[i])
  {
    if tasks != [] {
      assert DownloadAll(tasks, retrieved)[1..] == DownloadAll(tasks[1..], retrieved);
      UploadInputsAreRetrievedPaths(tasks[1..], retrieved);
    }
  }

  predicate UniformWidths(tasks: seq<Task>)
  {
    forall t1, t2 :: t1 in tasks && t2 in tasks ==> |t1.year| == |t2.year| && |t1.month| == |t2.month|
  }

  /** A task whose download failed never reaches the uploader. */
  lemma FailedDownloadNotUploaded(tasks: seq<Task>, retrieved: Task -> bool, t: Task)
    requires UniformWidths(tasks)
    requires t in tasks && !retrieved(t)
    ensures LocalPath(t) !in Successful(DownloadAll(tasks, retrieved))
  {
    var inputs := Successful(DownloadAll(tasks, retrieved));
    var done := RetrievedTasks(tasks, retrieved);
    UploadInputsAreRetrievedPaths(tasks, retrieved);
    forall i | 0 <= i < |inputs|
      ensures inputs[i] != LocalPath(t)
    {
      assert done[i] in done;
      LocalPathInjective(done[i], t);
    }
  }

  /** Every configured task has a four-character year and a two-character month. */
  lemma ConfiguredWidths()
    ensures UniformWidths(Tasks(TAXI_TYPES, YEARS, MONTHS))
  {
    MonthsZeroPadded();
    forall t | t in Tasks(TAXI_TYPES, YEARS, MONTHS)
      ensures |t.year| == 4 && |t.month| == 2
    {
      InTasks(t, TAXI_TYPES, YEARS, MONTHS);
    }
  }

  /** Every configured task is free of '/'. */
  lemma ConfiguredSlashFree(t: Task)
    requires t in Tasks(TAXI_TYPES, YEARS, MONTHS)
    ensures SlashFree(t)
  {
    InTasks(t, TAXI_TYPES, YEARS, MONTHS);
    MonthsLiteral();
  }

  /**
   * The blob a configured task is uploaded to is named after its release file,
   * and two configured tasks never share a blob.
   */
  lemma ConfiguredBlobNamesDistinct(t1: Task, t2: Task)
    requires t1 in Tasks(TAXI_TYPES, YEARS, MONTHS) && t2 in Tasks(TAXI_TYPES, YEARS, MONTHS)
    ensures PosixPath.Basename(LocalPath(t1)) == FileName(t1)
    ensures PosixPath.Basename(LocalPath(t1)) == PosixPath.Basename(LocalPath(t2)) ==> t1 == t2
  {
    ConfiguredSlashFree(t1);
    ConfiguredSlashFree(t2);
    NamesAgree(t1);
    NamesAgree(t2);
    ConfiguredWidths();
    FileNameInjective(t1, t2);
  }

  // ---------------------------------------------------------------- upload with retry

  /** What one pass through the body of the retry loop observed. */
  datatype AttemptOutcome =
    | UploadRaised        // `upload_from_filename` (or the existence check) raised
    | NotVerified         // the upload returned but the blob does not exist
    | Verified            // the upload returned and the blob exists

  /** The result of `upload_to_gcs`, with the number of attempts and of 3-second sleeps it made. */
  datatype UploadOutcome = UploadOutcome(blobName: string, succeeded: bool, attempts: nat, sleeps: nat)

  /**
   * The retry loop from `attempt` onwards, after `attempt - 1` failed
   * attempts each followed by a sleep.
   */
  function UploadFrom(blobName: string, attempt: nat, maxRetries: int, outcome: nat -> AttemptOutcome): UploadOutcome
    requires attempt >= 1
    decreases if attempt <= maxRetries then maxRetries - attempt + 1 else 0
  {
    if attempt > maxRetries then UploadOutcome(blobName, false, attempt - 1, attempt - 1)
    else if outcome(attempt) == Verified then UploadOutcome(blobName, true, attempt, attempt - 1)
    else UploadFrom(blobName, attempt + 1, maxRetries, outcome)
  }

  /** `upload_to_gcs(file_path, max_retries)`; `outcome(n)` is what attempt `n` observes. */
  function Upload(filePath: string, maxRetries: int, outcome: nat -> AttemptOutcome): UploadOutcome
  {
    UploadFrom(PosixPath.Basename(filePath), 1, maxRetries, outcome)
  }

  lemma {:induction false} UploadFromSpec(blobName: string, attempt: nat, maxRetries: int, outcome: nat -> AttemptOutcome)
    requires attempt >= 1
    ensures var r := UploadFrom(blobName, attempt, maxRetries, outcome);
      && r.blobName == blobName
      && (r.succeeded ==>
            && attempt <= r.attempts <= maxRetries
            && outcome(r.attempts) == Verified
            && (forall n :: attempt <= n < r.attempts ==> outcome(n) != Verified)
            && r.sleeps == r.attempts - 1)
      && (!r.succeeded ==>
            && r.attempts == (if maxRetries >= attempt then maxRetries else attempt - 1)
            && (forall n :: attempt <= n <= maxRetries ==> outcome(n) != Verified)
            && r.sleeps == r.attempts)
    decreases if attempt <= maxRetries then maxRetries - attempt + 1 else 0
  {
    if attempt <= maxRetries && outcome(attempt) != Verified {
      UploadFromSpec(blobName, attempt + 1, maxRetries, outcome);
    }
  }

  /**
   * The retry contract of `upload_to_gcs`: the blob is named by the file's base
   * name; it succeeds exactly when some attempt among the first `maxRetries`
   * verifies, and then at the first such attempt; it never makes more than
   * `maxRetries` attempts (none when `maxRetries <= 0`); and it sleeps once after
   * every failed attempt, the last one included.
   */
  lemma UploadContract(filePath: string, maxRetries: int, outcome: nat -> AttemptOutcome)
    ensures var r := Upload(filePath, maxRetries, outcome);
      && r.blobName == PosixPath.Basename(filePath)
      && (r.succeeded <==> exists n :: 1 <= n <= maxRetries && outcome(n) == Verified)
      && r.attempts <= (if maxRetries > 0 then maxRetries else 0)
      && (r.succeeded ==>
            && 1 <= r.attempts && outcome(r.attempts) == Verified
            && (forall n :: 1 <= n < r.attempts ==> outcome(n) != Verified)
            && r.sleeps == r.attempts - 1)
      && (!r.succeeded ==> r.attempts == r.sleeps == (if maxRetries > 0 then maxRetries else 0))
  {
    var r := Upload(filePath, maxRetries, outcome);
    UploadFromSpec(PosixPath.Basename(filePath), 1, maxRetries, outcome);
    if r.succeeded {
      assert 1 <= r.attempts <= maxRetries && outcome(r.attempts) == Verified;
    }
  }

  /** An upload that always raises, with the default three retries: three attempts and three sleeps. */
  lemma AlwaysRaisingUpload(filePath: string)
    ensures Upload(filePath, RETRIES, n => UploadRaised)
      == UploadOutcome(PosixPath.Basename(filePath), false, 3, 3)
  {
    UploadContract(filePath, RETRIES, n => UploadRaised);
  }

  /**
   * `upload_to_gcs`: the `for attempt in range(1, max_retries + 1)` loop with its
   * early return on a verified upload and its unconditional sleep.
   */
  method UploadToGcs(filePath: string, maxRetries: int, outcome: nat -> AttemptOutcome) returns (r: UploadOutcome)
    ensures r == Upload(filePath, maxRetries, outcome)
  {
    var blobName := PosixPath.Basename(filePath);
    ghost var spec := UploadFrom(blobName, 1, maxRetries, outcome);
    assert spec == Upload(filePath, maxRetries, outcome);
    var sleeps: nat := 0;
    var attempt: nat := 1;
    while attempt <= maxRetries
      invariant 1 <= attempt
      invariant attempt <= maxRetries + 1 || attempt == 1
      invariant sleeps == attempt - 1
      invariant UploadFrom(blobName, attempt, maxRetries, outcome) == spec
      decreases maxRetries - attempt
    {
      if outcome(attempt) == Verified {
        return UploadOutcome(blobName, true, attempt, sleeps);
      }
      sleeps := sleeps + 1;  // time.sleep(3)
      attempt := attempt + 1;
    }
    r := UploadOutcome(blobName, false, attempt - 1, sleeps);
  }

  // ---------------------------------------------------------------- bucket provisioning

  /** How `client.get_bucket(name)` ends. */
  datatype BucketLookup = Found | NotFound | Forbidden

  /** What `create_bucket` decides. */
  datatype Provisioning =
    | Proceed                                   // the bucket exists in this project
    | Created(name: string, location: string)   // one `client.create_bucket` call was made
    | Exit(code: int)                           // `sys.exit(code)`

  /** `create_bucket(name)`; `projectBucketIds` is what `list_buckets` yields, consulted only when the bucket was found. */
  function CreateBucket(name: string, lookup: BucketLookup, projectBucketIds: seq<string>): (p: Provisioning)
    ensures p == Proceed <==> lookup == Found && name in projectBucketIds
    ensures p.Created? <==> lookup == NotFound
    ensures p.Created? ==> p.name == name && p.location == BUCKET_LOCATION
    ensures p.Exit? ==> p.code == 1
  {
    match lookup
    case Found => if name !in projectBucketIds then Exit(1) else Proceed
    case NotFound => Created(name, BUCKET_LOCATION)
    case Forbidden => Exit(1)
  }

  /** Whether the run may go on to the transfer phases. */
  predicate Ready(p: Provisioning)
  {
    p.Proceed? || p.Created?
  }

  /** The state of the bucket name in the store, as seen by this project's credentials. */
  datatype BucketState = Absent | Owned | Foreign | Inaccessible

  /** What the client reports for a bucket in state `s`. */
  predicate Observed(s: BucketState, name: string, lookup: BucketLookup, ids: seq<string>)
  {
    match s
    case Absent => lookup == NotFound
    case Owned => lookup == Found && name in ids
    case Foreign => lookup == Found && name !in ids
    case Inaccessible => lookup == Forbidden
  }

  /**
   * Provisioning by state: an absent bucket is created once at US-CENTRAL1, an
   * owned one is used as it is, a foreign or inaccessible one ends the process
   * with status 1.
   */
  lemma ProvisioningByState(s: BucketState, name: string, lookup: BucketLookup, ids: seq<string>)
    requires Observed(s, name, lookup, ids)
    ensures var p := CreateBucket(name, lookup, ids);
      && (p == Created(name, BUCKET_LOCATION) <==> s == Absent)
      && (p == Proceed <==> s == Owned)
      && (p == Exit(1) <==> s == Foreign || s == Inaccessible)
      && (Ready(p) <==> s == Absent || s == Owned)
  {
  }

  /**
   * Provisioning twice in a row is safe: once the first call has created the
   * bucket (or found it owned), the second finds it owned and creates nothing.
   */
  lemma ProvisioningIdempotent(name: string, lookup: BucketLookup, ids: seq<string>)
    requires Ready(CreateBucket(name, lookup, ids))
    ensures CreateBucket(name, Found, ids + [name]) == Proceed
    ensures lookup == Found ==> CreateBucket(name, lookup, ids) == Proceed
  {
    assert name in ids + [name];
  }

  // ---------------------------------------------------------------- the run

  /** How the script ends. */
  datatype Run =
    | Aborted(exitCode: int)
    | Completed(
        provisioning: Provisioning,
        tasks: seq<Task>,
        downloads: seq<Option<string>>,
        uploadInputs: seq<string>,
        uploads: seq<UploadOutcome>)

  /**
   * The `__main__` block: provision, then the download round, the filter, and
   * the upload round. `uploadOutcome(p)` gives the attempt outcomes for file `p`.
   */
  method Replicate(
    lookup: BucketLookup,
    projectBucketIds: seq<string>,
    retrieved: Task -> bool,
    uploadOutcome: string -> nat -> AttemptOutcome)
    returns (run: Run)
    ensures run.Aborted? <==> !Ready(CreateBucket(BUCKET_NAME, lookup, projectBucketIds))
    ensures run.Aborted? ==> run.exitCode == 1
    ensures run.Completed? ==>
      && run.provisioning == CreateBucket(BUCKET_NAME, lookup, projectBucketIds)
      && run.tasks == Tasks(TAXI_TYPES, YEARS, MONTHS)
      && run.downloads == DownloadAll(run.tasks, retrieved)
      && run.uploadInputs == Successful(run.downloads)
      && |run.uploads| == |run.uploadInputs|
      && forall i :: 0 <= i < |run.uploads| ==>
           run.uploads[i] == Upload(run.uploadInputs[i], RETRIES, uploadOutcome(run.uploadInputs[i]))
  {
    var provisioning := CreateBucket(BUCKET_NAME, lookup, projectBucketIds);
    if provisioning.Exit? {
      return Aborted(provisioning.code);
    }
    var tasks := Tasks(TAXI_TYPES, YEARS, MONTHS);
    var downloads := DownloadAll(tasks, retrieved);
    var inputs := Successful(downloads);
    var uploads: seq<UploadOutcome> := [];
    for i := 0 to |inputs|
      invariant |uploads| == i
      invariant forall j :: 0 <= j < i ==> uploads[j] == Upload(inputs[j], RETRIES, uploadOutcome(inputs[j]))
    {
      var u := UploadToGcs(inputs[i], RETRIES, uploadOutcome(inputs[i]));
      uploads := uploads + [u];
    }
    run := Completed(provisioning, tasks, downloads, inputs, uploads);
  }

  /**
   * In a completed run every upload input is the local path of a task whose
   * download succeeded, no failed task is uploaded, and at most 48 files are.
   */
  lemma CompletedRunUploadsOnlyRetrieved(retrieved: Task -> bool, t: Task)
    requires t in Tasks(TAXI_TYPES, YEARS, MONTHS) && !retrieved(t)
    ensures var inputs := Successful(DownloadAll(Tasks(TAXI_TYPES, YEARS, MONTHS), retrieved));
      |inputs| <= 48 && LocalPath(t) !in inputs
  {
    ConfiguredTaskCount();
    ConfiguredWidths();
    FailedDownloadNotUploaded(Tasks(TAXI_TYPES, YEARS, MONTHS), retrieved, t);
  }
}
