/**
 * The batch runner (scripts/af3_runner.py): which JSON inputs become jobs, how
 * each job is bound to a GPU, what command and environment it is launched with,
 * how its outcome is classified, and how outcomes are filed into the three
 * result buckets that the summary report counts.
 *
 * Launching processes, the thread pool and the clock are not modelled: what
 * `nvidia-smi` printed, how each job ended and the order in which jobs finished
 * are inputs.
 */
module Runner {
  import opened Base
  import opened Text
  import opened Paths
  import opened JsonValue
  import opened Seqs

  // ---------------------------------------------------------------- GPU count

  /** How the `nvidia-smi --query-gpu=name --format=csv,noheader` call ended. */
  datatype SmiRun =
    | SmiNotFound                                 // FileNotFoundError: no nvidia-smi
    | SmiExited(returnCode: int, stdout: string)
    | SmiOsError(message: string)                 // any other OSError escapes

  /** `detect_gpu_count`: the number of newline-separated pieces of the stripped
      output when the tool succeeds, otherwise 0. */
  function DetectGpuCount(run: SmiRun): Result<nat>
  {
    match run
    case SmiNotFound => Ok(0)
    case SmiExited(code, out) => if code == 0 then Ok(|SplitOn(Strip(out), '\n')|) else Ok(0)
    case SmiOsError(message) => Raises(message)
  }

  /** A successful probe counts one GPU per line break plus one, so an empty
      listing still counts one GPU; a failed probe counts none. */
  lemma GpuCountIsLineCount(code: int, out: string)
    ensures DetectGpuCount(SmiExited(code, out))
            == Ok(if code == 0 then 1 + Occurrences(Strip(out), '\n') else 0)
    ensures code == 0 && Strip(out) == [] ==> DetectGpuCount(SmiExited(code, out)) == Ok(1)
  {
    SplitCount(Strip(out), '\n');
  }

  // ------------------------------------------------------ validate_json_file

  /** A list item, tested with `item in valid_aa`: only a one-letter string can
      be a member of the set of letters. */
  predicate IsResidueItem(item: Json)
  {
    item.JStr? && |item.s| == 1 && IsStandardResidue(item.s[0])
  }

  /** `all(aa in valid_aa for aa in sequence)`, where a failure to iterate
      (number, boolean, null) or to hash (a nested list or dict) raises and is
      caught as a rejection. Iterating a dict visits its keys. */
  predicate ResiduesOnly(sequence: Json)
  {
    match sequence
    case JStr(s) => forall i :: 0 <= i < |s| ==> IsStandardResidue(s[i])
    case JArr(items) => forall i :: 0 <= i < |items| ==> IsResidueItem(items[i])
    case JObj(fields) => forall k :: k in fields ==> |k| == 1 && IsStandardResidue(k[0])
    case _ => false
  }

  /** One element of `sequences` passes: it is a dict, and if it has a `protein`
      entry, that entry is a dict with a `sequence` made of residues only.
      (A `protein` that is not a dict fails either the `in` test or the
      subscript that follows it.) */
  predicate EntryAccepted(entry: Json)
  {
    && entry.JObj?
    && ("protein" in entry.fields ==>
          var protein := entry.fields["protein"];
          && protein.JObj?
          && "sequence" in protein.fields
          && ResiduesOnly(protein.fields["sequence"]))
  }

  /** The loop over `sequences`, returning at the first bad element. */
  function EntriesAccepted(entries: seq<Json>, i: nat): bool
    requires i <= |entries|
    decreases |entries| - i
  {
    if i == |entries| then true
    else if !EntryAccepted(entries[i]) then false
    else EntriesAccepted(entries, i + 1)
  }

  /** `validate_json_file` on the parsed content of the file (`None` when it
      cannot be read or parsed). A top level that is not a dict fails the
      `in` test or the subscript after it. */
  function ValidateJsonFile(content: Option<Json>): bool
  {
    if content.None? then false
    else
      var data := content.value;
      if !data.JObj? || "sequences" !in data.fields then false
      else
        var sequences := data.fields["sequences"];
        if !sequences.JArr? || |sequences.items| == 0 then false
        else EntriesAccepted(sequences.items, 0)
  }

  /** What a job input must look like: a dict whose `sequences` is a non-empty
      list of accepted elements. */
  ghost predicate AcceptableInput(data: Json)
  {
    && data.JObj?
    && "sequences" in data.fields
    && data.fields["sequences"].JArr?
    && |data.fields["sequences"].items| > 0
    && forall k :: 0 <= k < |data.fields["sequences"].items| ==>
         EntryAccepted(data.fields["sequences"].items[k])
  }

  lemma {:induction false} EntriesAcceptedIff(entries: seq<Json>, i: nat)
    requires i <= |entries|
    ensures EntriesAccepted(entries, i) <==> forall k :: i <= k < |entries| ==> EntryAccepted(entries[k])
    decreases |entries| - i
  {
    if i < |entries| {
      EntriesAcceptedIff(entries, i + 1);
    }
  }

  /** The early-return validator accepts exactly the acceptable inputs. */
  lemma ValidateJsonFileIff(content: Option<Json>)
    ensures ValidateJsonFile(content) <==> content.Some? && AcceptableInput(content.value)
  {
    if content.Some? && content.value.JObj? && "sequences" in content.value.fields {
      var sequences := content.value.fields["sequences"];
      if sequences.JArr? {
        EntriesAcceptedIff(sequences.items, 0);
      }
    }
  }

  // ------------------------------------------------------- finding the jobs

  /** The directory listing filtered as `run_batch_predictions` filters it:
      names ending in `.json` whose content validates, as joined paths, in
      listing order. */
  function AcceptedJsonFiles(inputDir: string, listing: seq<string>, files: map<string, Option<Json>>)
    : seq<string>
  {
    if listing == [] then []
    else
      var earlier := AcceptedJsonFiles(inputDir, listing[..|listing| - 1], files);
      var name := listing[|listing| - 1];
      if EndsWith(name, ".json") && ValidateJsonFile(ReadJson(files, name))
      then earlier + [PathJoin(inputDir, name)]
      else earlier
  }

  /** The loop that collects the job inputs. */
  method FindJsonFiles(inputDir: string, listing: seq<string>, files: map<string, Option<Json>>)
    returns (jsonFiles: seq<string>)
    ensures jsonFiles == AcceptedJsonFiles(inputDir, listing, files)
    ensures forall p :: p in jsonFiles <==>
      exists k :: 0 <= k < |listing| && p == PathJoin(inputDir, listing[k])
        && EndsWith(listing[k], ".json") && ValidateJsonFile(ReadJson(files, listing[k]))
  {
    jsonFiles := [];
    for k := 0 to |listing|
      invariant jsonFiles == AcceptedJsonFiles(inputDir, listing[..k], files)
      invariant forall p :: p in jsonFiles <==>
        exists j :: 0 <= j < k && p == PathJoin(inputDir, listing[j])
          && EndsWith(listing[j], ".json") && ValidateJsonFile(ReadJson(files, listing[j]))
    {
      assert listing[..k + 1][..k] == listing[..k];
      var name := listing[k];
      if EndsWith(name, ".json") {
        var path := PathJoin(inputDir, name);
        if ValidateJsonFile(ReadJson(files, name)) {
          jsonFiles := jsonFiles + [path];
        }
      }
    }
    assert listing[..|listing|] == listing;
  }

  // -------------------------------------------------------- planning the jobs

  /** One submitted job: its input file and its GPU (`None` in CPU mode). */
  datatype Task = Task(jsonFile: string, gpuId: Option<nat>)

  function GpuFor(i: nat, gpuCount: nat): Option<nat>
  {
    if gpuCount > 0 then Some(i % gpuCount) else None
  }

  /** The fixed plan: the i-th input file runs on GPU `i mod gpuCount`. */
  function Plan(jsonFiles: seq<string>, gpuCount: nat): seq<Task>
  {
    seq(|jsonFiles|, i requires 0 <= i < |jsonFiles| => Task(jsonFiles[i], GpuFor(i, gpuCount)))
  }

  /** The task-building loop with its running `gpu_index`: every GPU id is
      decided before anything runs, cycling through 0 .. gpuCount-1. */
  method PlanTasks(jsonFiles: seq<string>, gpuCount: nat) returns (tasks: seq<Task>)
    ensures |tasks| == |jsonFiles|
    ensures forall i :: 0 <= i < |tasks| ==> tasks[i].jsonFile == jsonFiles[i]
    ensures gpuCount > 0 ==> forall i :: 0 <= i < |tasks| ==>
              tasks[i].gpuId == Some(i % gpuCount) && i % gpuCount < gpuCount
    ensures gpuCount == 0 ==> forall i :: 0 <= i < |tasks| ==> tasks[i].gpuId.None?
    ensures tasks == Plan(jsonFiles, gpuCount)
  {
    tasks := [];
    var gpuIndex := 0;
    for k := 0 to |jsonFiles|
      invariant |tasks| == k
      invariant gpuCount > 0 ==> gpuIndex == k
      invariant forall i :: 0 <= i < k ==> tasks[i] == Task(jsonFiles[i], GpuFor(i, gpuCount))
    {
      var gpuId: Option<nat>;
      if gpuCount > 0 {
        gpuId := Some(gpuIndex % gpuCount);
        gpuIndex := gpuIndex + 1;
      } else {
        gpuId := None;
      }
      tasks := tasks + [Task(jsonFiles[k], gpuId)];
    }
  }

  /** Number of tasks bound to GPU `g`. */
  function GpuLoad(tasks: seq<Task>, g: nat): nat
  {
    if tasks == [] then 0
    else GpuLoad(tasks[..|tasks| - 1], g) + (if tasks[|tasks| - 1].gpuId == Some(g) then 1 else 0)
  }

  lemma MulAtLeast(d: int, n: int)
    requires d >= 1 && n >= 1
    ensures d * n >= n
  {
  }

  lemma DivModUnique(x: int, n: int, q: int, r: int)
    requires n > 0 && 0 <= r < n && x == q * n + r
    ensures x / n == q && x % n == r
  {
    var q', r' := x / n, x % n;
    assert q' * n + r' == x;
    assert (q - q') * n == r' - r by {
      assert (q - q') * n == q * n - q' * n;
    }
    if q > q' {
      MulAtLeast(q - q', n);
    } else if q < q' {
      MulAtLeast(q' - q, n);
    }
  }

  /** Counting one more item moves the remainder up by one, or wraps it to 0
      and moves the quotient up. */
  lemma NextDivMod(m: nat, n: nat)
    requires n > 0 && m > 0
    ensures (m - 1) % n + 1 < n ==> m / n == (m - 1) / n && m % n == (m - 1) % n + 1
    ensures (m - 1) % n + 1 == n ==> m / n == (m - 1) / n + 1 && m % n == 0
  {
    var q, r := (m - 1) / n, (m - 1) % n;
    assert m - 1 == q * n + r;
    if r + 1 < n {
      DivModUnique(m, n, q, r + 1);
    } else {
      assert (q + 1) * n == q * n + n;
      DivModUnique(m, n, q + 1, 0);
    }
  }

  /** Under the plan, GPU `g` gets every `gpuCount`-th task starting at `g`:
      `m / gpuCount` of them, plus one when `g < m % gpuCount`. */
  lemma {:induction false} PlanLoad(jsonFiles: seq<string>, gpuCount: nat, g: nat)
    requires gpuCount > 0 && g < gpuCount
    ensures GpuLoad(Plan(jsonFiles, gpuCount), g)
            == |jsonFiles| / gpuCount + (if g < |jsonFiles| % gpuCount then 1 else 0)
  {
    var m := |jsonFiles|;
    if m > 0 {
      var shorter := jsonFiles[..m - 1];
      var plan := Plan(jsonFiles, gpuCount);
      assert plan[..m - 1] == Plan(shorter, gpuCount);
      assert plan[m - 1].gpuId == Some((m - 1) % gpuCount);
      PlanLoad(shorter, gpuCount, g);
      NextDivMod(m, gpuCount);
    }
  }

  /** The round-robin plan is balanced: two GPUs differ by at most one task. */
  lemma PlanBalanced(jsonFiles: seq<string>, gpuCount: nat, g1: nat, g2: nat)
    requires gpuCount > 0 && g1 < gpuCount && g2 < gpuCount
    ensures GpuLoad(Plan(jsonFiles, gpuCount), g1) <= GpuLoad(Plan(jsonFiles, gpuCount), g2) + 1
  {
    PlanLoad(jsonFiles, gpuCount, g1);
    PlanLoad(jsonFiles, gpuCount, g2);
  }

  // ---------------------------------------------------------- worker ceiling

  function Min(a: int, b: int): int
  {
    if a <= b then a else b
  }

  /** `os.cpu_count() or 4` */
  function CpuBudget(cpuCount: Option<nat>): nat
  {
    if cpuCount.None? || cpuCount.value == 0 then 4 else cpuCount.value
  }

  /** `max_workers`: the smaller of `max_concurrent` and the GPU count in GPU
      mode, of `max_concurrent` and the CPU budget otherwise. */
  function MaxWorkers(maxConcurrent: int, gpuCount: nat, cpuCount: Option<nat>): (w: int)
    ensures w <= maxConcurrent
    ensures gpuCount > 0 ==> w <= gpuCount && (w == maxConcurrent || w == gpuCount)
    ensures gpuCount == 0 ==> w <= CpuBudget(cpuCount) && (w == maxConcurrent || w == CpuBudget(cpuCount))
  {
    if gpuCount > 0 then Min(maxConcurrent, gpuCount) else Min(maxConcurrent, CpuBudget(cpuCount))
  }

  // ------------------------------------------------------------ one job

  /** `os.path.splitext(os.path.basename(json_file))[0]` */
  function JobName(jsonFile: string): string
  {
    SplitExtRoot(BaseName(jsonFile))
  }

  function JobOutputDir(outputDir: string, jsonFile: string): string
  {
    PathJoin(outputDir, JobName(jsonFile))
  }

  const CudaVisibleDevices: string := "CUDA_VISIBLE_DEVICES"

  /** The child's environment: the parent's, with `CUDA_VISIBLE_DEVICES` set to
      the GPU id in GPU mode and removed in CPU mode; nothing else changes. */
  function ChildEnvironment(parent: map<string, string>, gpuId: Option<nat>): (env: map<string, string>)
    ensures forall k :: k != CudaVisibleDevices ==> (k in env <==> k in parent)
    ensures forall k :: k != CudaVisibleDevices && k in env ==> env[k] == parent[k]
    ensures gpuId.Some? ==> CudaVisibleDevices in env && env[CudaVisibleDevices] == NatToString(gpuId.value)
    ensures gpuId.None? ==> CudaVisibleDevices !in env
  {
    if gpuId.Some? then parent[CudaVisibleDevices := NatToString(gpuId.value)]
    else parent - {CudaVisibleDevices}
  }

  /** The child process reads back exactly the GPU it was assigned. */
  lemma ChildSeesAssignedGpu(parent: map<string, string>, g: nat)
    ensures var env := ChildEnvironment(parent, Some(g));
      AllDigits(env[CudaVisibleDevices]) && ParseDecimal(env[CudaVisibleDevices]) == g
  {
    ParseNatToString(g);
  }

  function GpuInfo(gpuId: Option<nat>): string
  {
    if gpuId.Some? then "GPU " + NatToString(gpuId.value) else "CPU"
  }

  /** The argument vector of the AlphaFold3 invocation. */
  function PredictionCommand(af3Script: string, jsonFile: string, outputDir: string, maxTemplateDate: string)
    : seq<string>
  {
    ["python", af3Script,
     "--input_dir", DirName(jsonFile),
     "--output_dir", JobOutputDir(outputDir, jsonFile),
     "--max_template_date", maxTemplateDate]
  }

  /** For a listed file `<stem>.json`, the job is named `<stem>`, writes to
      `<outputDir>/<stem>`, and is pointed at the whole input directory rather
      than at its own file. */
  lemma CommandForListedFile(inputDir: string, stem: string, outputDir: string, af3Script: string,
                             maxTemplateDate: string)
    requires '/' !in stem && !AllChar(stem, '.')
    ensures var jsonFile := PathJoin(inputDir, stem + ".json");
      && JobName(jsonFile) == stem
      && PredictionCommand(af3Script, jsonFile, outputDir, maxTemplateDate)
         == ["python", af3Script,
             "--input_dir", if AllChar(inputDir, '/') then inputDir else StripTrailingSlashes(inputDir),
             "--output_dir", PathJoin(outputDir, stem),
             "--max_template_date", maxTemplateDate]
  {
    var name := stem + ".json";
    assert '/' !in name by {
      assert forall c :: c in name ==> c in stem || c in ".json";
    }
    BaseNameOfJoin(inputDir, name);
    DirNameOfJoin(inputDir, name);
    SplitExtJson(stem);
  }

  /** How the job's process ended, as `run_single_prediction` observes it. */
  datatype ProcessOutcome =
    | DirCreateFailed(message: string)        // os.makedirs raised, outside the try
    | Exited(returnCode: int, stderr: string)
    | TimedOut                                // subprocess.TimeoutExpired after 3600 s
    | LaunchRaised(message: string)           // any other exception from subprocess.run

  datatype Status = Success | Failed | Timeout | Error

  /** The result dict of one job (its duration is not modelled). */
  datatype JobResult = JobResult(
    status: Status,
    sample: string,
    outputDir: Option<string>,
    error: Option<string>,
    gpuInfo: string)

  /** `run_single_prediction`: the job's result, or the exception that escapes
      it (only a failure to create the job directory does). */
  function RunSinglePrediction(jsonFile: string, outputDir: string, gpuId: Option<nat>,
                               outcome: ProcessOutcome): (r: Result<JobResult>)
    ensures r.Raises? <==> outcome.DirCreateFailed?
    ensures r.Ok? ==> r.value.sample == JobName(jsonFile) && r.value.gpuInfo == GpuInfo(gpuId)
    ensures r.Ok? ==> (r.value.status == Success <==> outcome.Exited? && outcome.returnCode == 0)
    ensures r.Ok? ==> (r.value.status == Failed <==> outcome.Exited? && outcome.returnCode != 0)
    ensures r.Ok? ==> (r.value.status == Timeout <==> outcome.TimedOut?)
    ensures r.Ok? ==> (r.value.status == Error <==> outcome.LaunchRaised?)
    ensures r.Ok? ==> (r.value.outputDir.Some? <==> r.value.status == Success)
  {
    var sample := JobName(jsonFile);
    var info := GpuInfo(gpuId);
    match outcome
    case DirCreateFailed(message) => Raises(message)
    case Exited(code, stderr) =>
      if code == 0 then Ok(JobResult(Success, sample, Some(JobOutputDir(outputDir, jsonFile)), None, info))
      else Ok(JobResult(Failed, sample, None, Some(stderr), info))
    case TimedOut => Ok(JobResult(Timeout, sample, None, Some("Prediction timeout"), info))
    case LaunchRaised(message) => Ok(JobResult(Error, sample, None, Some(message), info))
  }

  // ------------------------------------------------------------- the buckets

  datatype ErrorEntry = ErrorEntry(sample: string, error: string)

  /** `{'success': [...], 'failed': [...], 'errors': [...]}` */
  datatype BatchResults = BatchResults(success: seq<JobResult>, failed: seq<JobResult>, errors: seq<ErrorEntry>)

  const NoResults: BatchResults := BatchResults([], [], [])

  /** A finished future: the task it ran and how its process ended. */
  datatype Completion = Completion(task: Task, outcome: ProcessOutcome)

  /** Files the outcome of one job: `success` only for status success,
      `failed` for the other three statuses, `errors` when the job raised. */
  function FileResult(results: BatchResults, r: Result<JobResult>, sample: string): BatchResults
  {
    match r
    case Ok(res) =>
      if res.status == Success then results.(success := results.success + [res])
      else results.(failed := results.failed + [res])
    case Raises(e) => results.(errors := results.errors + [ErrorEntry(sample, e)])
  }

  /** Files one finished job under its own name. */
  function Record(results: BatchResults, outputDir: string, c: Completion): BatchResults
  {
    FileResult(results, RunSinglePrediction(c.task.jsonFile, outputDir, c.task.gpuId, c.outcome),
               JobName(c.task.jsonFile))
  }

  /** The buckets after the given jobs finished, in that order. */
  function Bucketed(outputDir: string, done: seq<Completion>): BatchResults
  {
    if done == [] then NoResults
    else Record(Bucketed(outputDir, done[..|done| - 1]), outputDir, done[|done| - 1])
  }

  /** The `as_completed` loop, over the jobs in the order they finished. */
  method CollectResults(outputDir: string, done: seq<Completion>) returns (results: BatchResults)
    ensures results == Bucketed(outputDir, done)
    ensures forall r :: r in results.success ==> r.status == Success
    ensures forall r :: r in results.failed ==> r.status != Success
  {
    results := NoResults;
    for k := 0 to |done|
      invariant results == Bucketed(outputDir, done[..k])
      invariant forall r :: r in results.success ==> r.status == Success
      invariant forall r :: r in results.failed ==> r.status != Success
    {
      assert done[..k + 1][..k] == done[..k];
      var c := done[k];
      var res := RunSinglePrediction(c.task.jsonFile, outputDir, c.task.gpuId, c.outcome);
      match res {
        case Ok(r) =>
          if r.status == Success {
            results := results.(success := results.success + [r]);
          } else {
            results := results.(failed := results.failed + [r]);
          }
        case Raises(e) =>
          results := results.(errors := results.errors + [ErrorEntry(JobName(c.task.jsonFile), e)]);
      }
    }
    assert done[..|done|] == done;
  }

  function TotalTasks(r: BatchResults): nat
  {
    |r.success| + |r.failed| + |r.errors|
  }

  function ResultSample(r: JobResult): string { r.sample }
  function ErrorSample(e: ErrorEntry): string { e.sample }
  function CompletionSample(c: Completion): string { JobName(c.task.jsonFile) }
  function TaskSample(t: Task): string { JobName(t.jsonFile) }
  function TaskOf(c: Completion): Task { c.task }

  /** The sample names found across the three buckets. */
  function BucketSamples(r: BatchResults): multiset<string>
  {
    multiset(MapSeq(ResultSample, r.success)) + multiset(MapSeq(ResultSample, r.failed))
    + multiset(MapSeq(ErrorSample, r.errors))
  }

  lemma SuccessFiled(before: BatchResults, res: JobResult)
    ensures BucketSamples(before.(success := before.success + [res])) == BucketSamples(before) + multiset{res.sample}
  {
    MapSeqAppend(ResultSample, before.success, [res]);
  }

  lemma FailureFiled(before: BatchResults, res: JobResult)
    ensures BucketSamples(before.(failed := before.failed + [res])) == BucketSamples(before) + multiset{res.sample}
  {
    MapSeqAppend(ResultSample, before.failed, [res]);
  }

  lemma ErrorFiled(before: BatchResults, e: ErrorEntry)
    ensures BucketSamples(before.(errors := before.errors + [e])) == BucketSamples(before) + multiset{e.sample}
  {
    MapSeqAppend(ErrorSample, before.errors, [e]);
  }

  lemma FiledOnce(before: BatchResults, r: Result<JobResult>, sample: string)
    requires r.Ok? ==> r.value.sample == sample
    ensures TotalTasks(FileResult(before, r, sample)) == TotalTasks(before) + 1
    ensures BucketSamples(FileResult(before, r, sample)) == BucketSamples(before) + multiset{sample}
  {
    match r {
      case Ok(res) =>
        if res.status == Success {
          SuccessFiled(before, res);
        } else {
          FailureFiled(before, res);
        }
      case Raises(e) =>
        ErrorFiled(before, ErrorEntry(sample, e));
    }
  }

  /** Filing one finished job adds one entry, under its own name. */
  lemma RecordOne(before: BatchResults, outputDir: string, c: Completion)
    ensures TotalTasks(Record(before, outputDir, c)) == TotalTasks(before) + 1
    ensures BucketSamples(Record(before, outputDir, c)) == BucketSamples(before) + multiset{CompletionSample(c)}
  {
    FiledOnce(before, RunSinglePrediction(c.task.jsonFile, outputDir, c.task.gpuId, c.outcome),
              JobName(c.task.jsonFile));
  }

  /** Every finished job lands in exactly one bucket, under its own name. */
  lemma {:induction false} EveryJobInOneBucket(outputDir: string, done: seq<Completion>)
    ensures TotalTasks(Bucketed(outputDir, done)) == |done|
    ensures BucketSamples(Bucketed(outputDir, done)) == multiset(MapSeq(CompletionSample, done))
  {
    if done != [] {
      var init := done[..|done| - 1];
      var c := done[|done| - 1];
      assert done == init + [c];
      EveryJobInOneBucket(outputDir, init);
      var before := Bucketed(outputDir, init);
      assert Bucketed(outputDir, done) == Record(before, outputDir, c);
      RecordOne(before, outputDir, c);
      MapSeqAppend(CompletionSample, init, [c]);
      assert MapSeq(CompletionSample, [c]) == [CompletionSample(c)];
    }
  }

  // -------------------------------------------------------- the whole batch

  datatype BatchOutcome = Finished(results: BatchResults) | Raised(error: string)

  /** The tasks handed to the thread pool: none when the input directory is
      missing or cannot be listed, no input validates, GPU detection raises,
      the output directory cannot be made or the pool refuses its worker
      count. */
  function SubmittedTasks(inputDirExists: bool, inputDir: string, listing: Option<seq<string>>,
                          files: map<string, Option<Json>>, outputDirMade: bool, maxConcurrent: int,
                          smi: SmiRun, cpuCount: Option<nat>): seq<Task>
  {
    if !inputDirExists || listing.None? then []
    else
      var jsonFiles := AcceptedJsonFiles(inputDir, listing.value, files);
      if jsonFiles == [] then []
      else match DetectGpuCount(smi)
        case Raises(_) => []
        case Ok(gpuCount) =>
          if !outputDirMade || MaxWorkers(maxConcurrent, gpuCount, cpuCount) <= 0 then []
          else Plan(jsonFiles, gpuCount)
  }

  /** `run_batch_predictions`. `inputDirExists` is `os.path.isdir(input_dir)`;
      `listing` is `os.listdir(input_dir)`, `None` when that raises;
      `outputDirMade` says whether `os.makedirs(output_dir, exist_ok=True)`
      succeeds. `done` is what `as_completed` yields: the submitted tasks,
      each once, in the order they finished, with their outcomes. */
  method RunBatchPredictions(inputDirExists: bool, inputDir: string, listing: Option<seq<string>>,
                             files: map<string, Option<Json>>, outputDir: string, outputDirMade: bool,
                             maxConcurrent: int, smi: SmiRun, cpuCount: Option<nat>, done: seq<Completion>)
    returns (outcome: BatchOutcome)
    requires multiset(MapSeq(TaskOf, done))
             == multiset(SubmittedTasks(inputDirExists, inputDir, listing, files, outputDirMade,
                                        maxConcurrent, smi, cpuCount))
    ensures !inputDirExists ==> outcome == Finished(NoResults)
    ensures listing.Some? && AcceptedJsonFiles(inputDir, listing.value, files) == [] ==> outcome == Finished(NoResults)
    ensures outcome.Raised? <==>
              inputDirExists
              && (listing.None?
                  || (AcceptedJsonFiles(inputDir, listing.value, files) != []
                      && (DetectGpuCount(smi).Raises?
                          || !outputDirMade
                          || MaxWorkers(maxConcurrent, DetectGpuCount(smi).value, cpuCount) <= 0)))
    ensures outcome.Finished? ==> outcome.results == Bucketed(outputDir, done)
    ensures outcome.Finished? ==>
              && TotalTasks(outcome.results) == |done|
              && BucketSamples(outcome.results)
                 == multiset(MapSeq(TaskSample, SubmittedTasks(inputDirExists, inputDir, listing, files,
                                                              outputDirMade, maxConcurrent, smi, cpuCount)))
  {
    var submitted := SubmittedTasks(inputDirExists, inputDir, listing, files, outputDirMade,
                                    maxConcurrent, smi, cpuCount);
    assert |done| == |multiset(MapSeq(TaskOf, done))| == |submitted|;
    if !inputDirExists {
      return Finished(NoResults);
    }
    if listing.None? {
      return Raised("OSError: cannot list the input directory");
    }
    var jsonFiles := FindJsonFiles(inputDir, listing.value, files);
    if jsonFiles == [] {
      return Finished(NoResults);
    }
    var detected := DetectGpuCount(smi);
    if detected.Raises? {
      return Raised(detected.error);
    }
    var gpuCount := detected.value;
    if !outputDirMade {
      return Raised("OSError: cannot create the output directory");
    }
    var tasks := PlanTasks(jsonFiles, gpuCount);
    var maxWorkers := MaxWorkers(maxConcurrent, gpuCount, cpuCount);
    if maxWorkers <= 0 {
      return Raised("max_workers must be greater than 0");
    }
    var results := CollectResults(outputDir, done);
    EveryJobInOneBucket(outputDir, done);
    MapSeqPermutation(TaskSample, MapSeq(TaskOf, done), tasks);
    assert MapSeq(TaskSample, MapSeq(TaskOf, done)) == MapSeq(CompletionSample, done);
    outcome := Finished(results);
  }

  // --------------------------------------------------------- summary report

  /** The success-rate line of `generate_summary_report` as written: it divides
      by the task total, which raises ZeroDivisionError when there are none. */
  function SuccessRate(r: BatchResults): (rate: Result<real>)
    ensures rate.Raises? <==> TotalTasks(r) == 0
    ensures rate.Ok? ==> 0.0 <= rate.value <= 100.0
  {
    var total := TotalTasks(r);
    if total == 0 then Raises("division by zero")
    else
      PercentRange(|r.success|, total);
      Ok((|r.success| as real) / (total as real) * 100.0)
  }

  /** A run without a valid input leaves every bucket empty, and reporting on
      it raises. */
  lemma EmptyRunReportRaises()
    ensures SuccessRate(NoResults) == Raises("division by zero")
  {
  }

  /** A share of successes, as a percentage, lies in [0, 100] and is 100
      exactly when every task succeeded. */
  lemma PercentRange(part: nat, total: nat)
    requires 0 < total && part <= total
    ensures 0.0 <= (part as real) / (total as real) * 100.0 <= 100.0
    ensures (part as real) / (total as real) * 100.0 == 100.0 <==> part == total
  {
    var q := (part as real) / (total as real);
    assert q * (total as real) == part as real;
    assert 0.0 <= q <= 1.0;
  }

  /** The success rate with the empty run reported as 0%. */
  function SuccessRatePercent(r: BatchResults): (rate: real)
    ensures 0.0 <= rate <= 100.0
    ensures TotalTasks(r) > 0 ==> SuccessRate(r) == Ok(rate)
    ensures TotalTasks(r) == 0 ==> rate == 0.0
    ensures rate == 100.0 <==> TotalTasks(r) > 0 && |r.success| == TotalTasks(r)
  {
    var total := TotalTasks(r);
    if total == 0 then 0.0
    else
      PercentRange(|r.success|, total);
      (|r.success| as real) / (total as real) * 100.0
  }
}
