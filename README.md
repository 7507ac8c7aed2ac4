# AlphaFold3 helper scripts, modelled in Dafny

This project models the five helper scripts that prepare, run and summarise
batches of AlphaFold3 predictions:

- `af3_json_generator.py` turns FASTA files into AlphaFold3 input JSON:
  - random model seeds;
  - the input record;
  - the amino-acid and document checks;
  - `read_fasta`;
  - the batch conversion of a directory.
- `sequence_generation.py` enumerates every RXFP3 variant that replaces a
  window of residues 306-327 with the Bril insert. There are four linker
  modes, and the variants are written as a 70-column FASTA file.
- `af3_runner.py` runs the predictions:
  - `nvidia-smi` GPU detection;
  - input validation;
  - round-robin GPU assignment;
  - the worker count;
  - the child environment and command;
  - outcome classification;
  - filing results into the `success`/`failed`/`errors` buckets;
  - the success rate of the report.
- `af3_analysis_tool.py` reads a directory of predictions back. For each
  sample folder it picks a structure file and the `summary_confidences` JSON,
  extracts the confidence fields, keeps the per-sample tallies, and merges the
  tables with the quality classes.
- `calc_af3_ptm_batch.py` extracts only `ptm`, with a stricter summary-file
  lookup.

The outside world is an input to the model:

| input | models |
|---|---|
| `Listing.Entry` map | the directory tree (`os.listdir`, `isfile`, `isdir`) |
| `JsonValue.Json` value | a parsed JSON document |
| `map<string, Option<real>>` | a confidence document (`None` is JSON `null`) |
| `SmiRun` | how `nvidia-smi` ended |
| `ProcessOutcome` | how each child process ended |
| sequence of completions | the order in which jobs finished |
| function argument | the random draws |

Python's `str` ordering, `sorted`, `strip`, `split`, `os.path.join`,
`basename`, `dirname` and `splitext` are modelled in the helper modules:
`Text`, `Lex`, `Paths`, `Seqs` and `Listing`.

Points where the code's behaviour is easy to mistake, which the model
follows as written:

- GPUs are always probed with `nvidia-smi`; an existing
  `CUDA_VISIBLE_DEVICES` is not honoured.
- Each job's GPU is fixed in advance as `index % gpu_count`.
- Zero workers is not rejected up front: `ThreadPoolExecutor` raises.
- A launch error is filed as that job's `error` status. It does not abort
  the run.
- Each job is given the whole input directory. Its input is not staged
  separately.
- Analysis rows come out in sorted sample order, not submission order.
- A folder with neither a structure file nor a summary file gets no row in
  the merged table.

## Model

| member | source | states |
|---|---|---|
| Runner.GpuCountIsLineCount | scripts/af3_runner.py:41-52 | A successful probe counts one GPU per line break of the stripped output plus one, so an empty output still counts one GPU; a failed probe counts none |
| Runner.EntriesAcceptedIff | scripts/af3_runner.py:74-91 | The per-entry loop accepts exactly when every entry from the given index on is a dict whose `protein`, if present, has a `sequence` made only of the twenty residue letters |
| Runner.ValidateJsonFileIff | scripts/af3_runner.py:55-101 | A file is valid exactly when it parses to a document with a non-empty `sequences` list of acceptable entries; unreadable or malformed files are invalid |
| Runner.FindJsonFiles | scripts/af3_runner.py:228-236 | The collected paths are exactly the joins of listed `.json` names whose file validates, in listing order |
| Runner.PlanTasks | scripts/af3_runner.py:250-261 | One task per file in order; with GPUs the i-th task gets GPU `i % gpu_count`, which is below the GPU count; without GPUs no task gets a GPU |
| Runner.PlanLoad | scripts/af3_runner.py:251-261 | Round-robin gives GPU g exactly `n / gpus` tasks, plus one when g is below `n % gpus` |
| Runner.PlanBalanced | scripts/af3_runner.py:251-261 | Any two GPUs' task counts differ by at most one |
| Runner.MaxWorkers | scripts/af3_runner.py:266-271 | The worker count is the minimum of the requested concurrency and the GPU count, or, in CPU mode, the CPU count (4 when unknown) |
| Runner.ChildEnvironment | scripts/af3_runner.py:131-137 | The child's environment equals the parent's on every other variable; `CUDA_VISIBLE_DEVICES` is the decimal GPU id when one is assigned and is removed otherwise |
| Runner.ChildSeesAssignedGpu | scripts/af3_runner.py:132-133 | The value placed in `CUDA_VISIBLE_DEVICES` is all digits and parses back to the assigned GPU id |
| Runner.CommandForListedFile | scripts/af3_runner.py:124-145 | For an input `dir/stem.json` with a slash-free stem that is not all dots, the job is named `stem` and the command passes the input directory, `output_dir/stem` and the template date to the AlphaFold3 script |
| Runner.RunSinglePrediction | scripts/af3_runner.py:124-198 | The job raises only when its output directory cannot be made; otherwise it is named after the file and labelled with its GPU, and its status is success, failed, timeout or error exactly for exit 0, non-zero exit, timeout or launch exception; only a success reports its output directory |
| Runner.CollectResults | scripts/af3_runner.py:290-305 | The completion loop files results in completion order; `success` holds only successes and `failed` only the rest |
| Runner.FiledOnce | scripts/af3_runner.py:292-305 | Filing one outcome adds exactly one entry to one bucket, under the job's own name |
| Runner.RecordOne | scripts/af3_runner.py:290-305 | Filing one finished job adds one entry under its own name |
| Runner.EveryJobInOneBucket | scripts/af3_runner.py:290-307 | After all jobs finish, the buckets hold exactly one entry per finished job, and the multiset of sample names is that of the jobs |
| Runner.RunBatchPredictions | scripts/af3_runner.py:201-307 | A missing input directory or no valid JSON gives empty buckets; the run raises exactly when an existing input directory cannot be listed, or there is valid JSON and the GPU probe raises, the output directory cannot be made or the worker count is not positive; otherwise every submitted task is filed exactly once, whatever the completion order |
| Runner.SuccessRate | scripts/af3_runner.py:314-333 | The report's rate raises exactly when no task was filed; otherwise it lies between 0 and 100 |
| Runner.EmptyRunReportRaises | scripts/af3_runner.py:333 | An empty run makes the report divide by zero |
| Runner.SuccessRatePercent | scripts/af3_runner.py:333 | Corrected rate: always between 0 and 100, 0 for an empty run, equal to the script's rate otherwise, and 100 exactly when every filed task succeeded |
| Analysis.PickPreferred | scripts/af3_analysis_tool.py:120-136 | The pick is one of the candidates; it mentions `model` (case-insensitively) whenever any candidate does, and no preferred candidate sorts before it |
| Analysis.SelectStructureFile | scripts/af3_analysis_tool.py:106-143 | No file is chosen exactly when no name ends in `.cif` or `.pdb`; otherwise the choice has the preferred extension (CIF over PDB); it mentions `model` whenever a file of that extension does, and no such file sorts before it |
| Analysis.PdbOnlyWithoutCif | scripts/af3_analysis_tool.py:120-136 | A PDB file is chosen only when the folder has no CIF file |
| Analysis.FindBestModelFile | scripts/af3_analysis_tool.py:96-147 | No path is returned exactly when the folder cannot be listed or holds no regular `.cif`/`.pdb` file; otherwise the folder joined with the selected structure file is returned |
| Analysis.SummaryTestsCollapse | scripts/af3_analysis_tool.py:204 | The two suffix tests together accept exactly the names ending in `summary_confidences.json` |
| Analysis.FirstSummaryFrom | scripts/af3_analysis_tool.py:203-208 | The scan finds the first regular file with the summary suffix at or after the start, or reports that there is none |
| Analysis.FindSummaryJson | scripts/af3_analysis_tool.py:190-215 | Nothing is found exactly when the folder is unlisted or has no regular file ending in `summary_confidences.json`; the exact name wins; otherwise the first such file in listing order is returned |
| Analysis.Extracted | scripts/af3_analysis_tool.py:171-174 | The extracted map has exactly the requested fields, each bound to the document's value or to `None` when the document lacks it |
| Analysis.ExtractConfidenceFromJson | scripts/af3_analysis_tool.py:150-187 | An unreadable file gives `None`; otherwise the requested fields are extracted, `['ptm']` by default |
| Analysis.VisitSample | scripts/af3_analysis_tool.py:267-307 | One pass of the per-sample loop, first the pLDDT half and then the confidence half |
| Analysis.AnalyzeResults | scripts/af3_analysis_tool.py:218-309 | The analysis exits exactly when the main directory cannot be listed; otherwise it visits the subdirectories in sorted order with the default fields `ptm`, `iptm`, `ranking_score` |
| Analysis.PlddtStepAccounts | scripts/af3_analysis_tool.py:271-285 | The pLDDT half adds the sample once, either as a pLDDT row or as a structure failure, and leaves the confidence side alone |
| Analysis.ConfidenceStepAccounts | scripts/af3_analysis_tool.py:287-307 | The confidence half adds the sample once, either as a confidence row or as a confidence failure, and leaves the pLDDT side alone |
| Analysis.AnalyzedAccounts | scripts/af3_analysis_tool.py:267-307 | Every sample appears exactly once among the pLDDT rows and structure failures, and exactly once among the confidence rows and confidence failures |
| Analysis.ConfidenceStepRowsFit | scripts/af3_analysis_tool.py:289-294 | A confidence row is only added with one value per field, at least one of them not `None` |
| Analysis.RowsFit | scripts/af3_analysis_tool.py:267-307 | Every confidence row of the whole analysis has one value per field and at least one value |
| Analysis.ConfidenceRowsWellFormed | scripts/af3_analysis_tool.py:326-328 | Every confidence row fits the `Sample` + upper-cased fields header and has at least one value |
| Analysis.ErrorsSplit | scripts/af3_analysis_tool.py:267-307 | Every error entry is either a structure failure or a confidence failure |
| Analysis.FailedSkippedTally | scripts/af3_analysis_tool.py:340-341 | The "failed/skipped samples" figure is the structure failures plus the confidence failures |
| Analysis.FailedSkippedTallyCountsSteps | scripts/af3_analysis_tool.py:267-341 | Over a whole analysis, the figure counts one per failed step: the folders without a pLDDT row plus the folders without a confidence row |
| Analysis.TallyCountsOneFolderTwice | scripts/af3_analysis_tool.py:340-341 | A folder with neither structure nor summary file is reported as two failed samples |
| Analysis.FailedSampleCount | scripts/af3_analysis_tool.py:340-341 | Corrected tally: the number of distinct failing samples, never more than the error entries |
| Analysis.FailedSamplesBounded | scripts/af3_analysis_tool.py:340-341 | The corrected tally never exceeds the number of analysed folders |
| Analysis.Classify | scripts/af3_analysis_tool.py:367-378 | `Unknown` exactly when pLDDT or pTM is missing; `High` exactly when pLDDT > 70 and pTM > 0.7; `Medium` exactly when not `High`, both clear the lower bar (pLDDT > 50, pTM > 0.5) and one clears its upper bar (pLDDT > 70 or pTM > 0.7); `Low` exactly when both are present and pLDDT <= 50, pTM <= 0.5, or neither clears its upper bar |
| Analysis.ClassifyMonotone | scripts/af3_analysis_tool.py:370-376 | Better scores never give a worse class |
| Analysis.PlddtDict | scripts/af3_analysis_tool.py:348 | The dict's keys are exactly the pLDDT samples, and the final row's reading is stored under its sample |
| Analysis.PlddtDictLastWins | scripts/af3_analysis_tool.py:348 | For every sample, the dict holds the reading of its last row |
| Analysis.ZipDict | scripts/af3_analysis_tool.py:349 | `zip` keys only fields; every field is a key when there are enough values |
| Analysis.ZipDictPairs | scripts/af3_analysis_tool.py:349 | The keys are exactly the fields paired with a value; a field maps to the value paired with its last occurrence |
| Analysis.ConfidenceDict | scripts/af3_analysis_tool.py:349 | The dict's keys are exactly the confidence samples, and each inner dict has only requested fields |
| Analysis.ConfidenceDictLastWins | scripts/af3_analysis_tool.py:349 | For every sample, the inner dict is the `zip` of the fields with the values of its last row |
| Analysis.MergedSamples | scripts/af3_analysis_tool.py:352-356 | The merged samples are strictly ascending and are exactly the samples of either table |
| Analysis.MergedRowOf | scripts/af3_analysis_tool.py:357-381 | One merged row is built: the sample, its pLDDT, one value per field and its quality class |
| Analysis.MergedRows | scripts/af3_analysis_tool.py:356-381 | One merged row per sample, in the given order |
| Analysis.MergeData | scripts/af3_analysis_tool.py:344-388 | The merged table has the header `Sample`, `Average_pLDDT`, the upper-cased fields and `Quality`; its rows are strictly ascending, cover exactly the samples of either table, and fit the header |
| Analysis.MissingValuesAreNone | scripts/af3_analysis_tool.py:360-378 | A sample missing from one table gets `None` for that table's columns and the class `Unknown` |
| Analysis.NoPtmFieldMeansUnknown | scripts/af3_analysis_tool.py:368-378 | Without `ptm` among the fields, every merged row is `Unknown` |
| Analysis.MergedPlddtIsLast | scripts/af3_analysis_tool.py:348-360 | For any sample, the merged pLDDT is the reading of its last pLDDT row |
| Analysis.MergedValuesAreLast | scripts/af3_analysis_tool.py:349-363 | For any sample, each merged field value is the one its last confidence row pairs with that field's last occurrence |
| JsonGenerator.GenerateRandomSeeds | scripts/af3_json_generator.py:23-24 | The generator makes `num_seeds` seeds (none for a non-positive count), each between 1 and 99999 |
| JsonGenerator.ValidAminoAcidSequenceIgnoresCase | scripts/af3_json_generator.py:27-30 | The residue check is case-insensitive and accepts the empty sequence |
| JsonGenerator.PrintedConstants | scripts/af3_json_generator.py:29 | Through `str()`, JSON `false` passes as `FALSE`, while `true` and `null` fail |
| JsonGenerator.CreateAf3InputJson | scripts/af3_json_generator.py:33-54 | The created record has exactly the keys name, modelSeeds, sequences, dialect and version; it carries one `protein` entry per input record, `num_seeds` seeds in range, dialect `alphafold3` and version 1 |
| JsonGenerator.CreatedInputValidIff | scripts/af3_json_generator.py:57-81 | A created record passes `validate_af3_json` exactly when there is at least one sequence and every sequence passes the residue check |
| JsonGenerator.RunnerAcceptsCreatedIff | scripts/af3_json_generator.py:33-54 | The runner accepts a created record exactly when there is at least one sequence and every residue is an upper-case standard letter |
| JsonGenerator.CreatedEntryAccepted | scripts/af3_runner.py:74-91 | The runner accepts a created protein entry exactly when its sequence has only upper-case standard letters |
| JsonGenerator.RunnerAcceptanceImpliesValid | scripts/af3_json_generator.py:57-81 | Whatever the runner accepts, the generator's own check accepts |
| JsonGenerator.LowerCaseSavedButNotRun | scripts/af3_json_generator.py:27-30 | A lower-case residue passes the generator's check, so the file is saved, but the runner rejects it |
| JsonGenerator.ReadFasta | scripts/af3_json_generator.py:98-120 | The line loop returns what `ReadFastaResult` gives: no records for a missing file, otherwise the records described by `ReadFastaRecords` or the `IndexError` of a bare `>` header |
| JsonGenerator.StepByKind | scripts/af3_json_generator.py:107-116 | Each line acts only through its kind (blank, header with its first word, or residue text), and it is a header kind exactly when it is a header line |
| JsonGenerator.HeaderIndicesExact | scripts/af3_json_generator.py:106-118 | The header positions are increasing and are exactly the lines that strip to something starting with `>` |
| JsonGenerator.ScanByKinds | scripts/af3_json_generator.py:106-116 | Scanning the lines equals scanning their kinds |
| JsonGenerator.ScanState | scripts/af3_json_generator.py:106-118 | After a successful scan, the closed records are the blocks between consecutive headers, and the open record is named after the last header and holds the residue lines after it |
| JsonGenerator.ReadFastaRecords | scripts/af3_json_generator.py:98-120 | A successful read of any file returns one record per header: the k-th is named after the first word of the k-th header and holds the concatenated stripped non-blank lines up to the next header or the end; lines before the first header are dropped |
| JsonGenerator.BareHeader | scripts/af3_json_generator.py:113 | A header line has no identifier exactly when it strips to `>` |
| JsonGenerator.StepRaisesIff | scripts/af3_json_generator.py:107-116 | One line raises exactly when it strips to `>` |
| JsonGenerator.ScanRaisesIff | scripts/af3_json_generator.py:106-116 | The scan raises exactly when some line is a bare `>` header |
| JsonGenerator.ReadFastaRaisesIff | scripts/af3_json_generator.py:98-120 | Reading an existing file raises exactly when some line strips to `>` |
| JsonGenerator.ScanCountsHeaders | scripts/af3_json_generator.py:106-118 | The closed records plus any open record number the header lines, and a record is open once a header has been seen |
| JsonGenerator.OneRecordPerHeader | scripts/af3_json_generator.py:98-120 | A successful read returns one record per header line |
| JsonGenerator.BatchFromFastaDir | scripts/af3_json_generator.py:123-135 | An unlistable input directory raises; otherwise the loop writes what the batch specification says, in listing order |
| JsonGenerator.WrittenFilesValid | scripts/af3_json_generator.py:123-135 | Every written file validates and is named `<root>.json` after some listed FASTA name |
| JsonGenerator.BatchItemWrittenIff | scripts/af3_json_generator.py:126-135 | A FASTA file raises exactly when reading it raises; it is written exactly when it reads to at least one record and every sequence passes the residue check |
| SequenceGeneration.ModeNameInjective | scripts/sequence_generation.py:39-44 | The four linker-mode names are distinct |
| SequenceGeneration.ChoicesMembers | scripts/sequence_generation.py:59-71 | The enumerated choices are exactly the starts from `r0` to `r1 + 1` with resumes from the start to `r1 + 1` |
| SequenceGeneration.PositionCountClosedForm | scripts/sequence_generation.py:141-146 | The position count has the closed form `(w + 1)(w + 2) / 2` for a window of w residues |
| SequenceGeneration.CountPositions | scripts/sequence_generation.py:141-150 | The counting loop computes the position count, which has that closed form |
| SequenceGeneration.VariantFields | scripts/sequence_generation.py:78-104 | A variant carries the name, the mode name, and the deletion start/end/length or the insertion position, blank where they do not apply; its length field is its sequence length |
| SequenceGeneration.VariantSplice | scripts/sequence_generation.py:74-92 | A variant's sequence is the prefix before the start, then the linked insert, then the suffix from the resume point |
| SequenceGeneration.PossibleEnds | scripts/sequence_generation.py:67-71 | `possible_ends` is `start - 1` followed by `start .. r1` |
| SequenceGeneration.AppendModes | scripts/sequence_generation.py:90-104 | The mode loop appends one record per linker mode, in dictionary order |
| SequenceGeneration.AppendStart | scripts/sequence_generation.py:73-104 | The `possible_ends` loop appends the records of every end for that start |
| SequenceGeneration.Enumerate | scripts/sequence_generation.py:59-104 | The nested loops produce the records of all window choices, in loop order |
| SequenceGeneration.GenerateVariants | scripts/sequence_generation.py:47-107 | The script raises exactly when the window is out of range; otherwise it produces the enumerated variants |
| SequenceGeneration.VariantsFromWindow | scripts/sequence_generation.py:59-104 | Every variant comes from a start and resume inside the window |
| SequenceGeneration.WindowInVariants | scripts/sequence_generation.py:59-104 | Every start and resume inside the window, in every mode, yields a variant |
| SequenceGeneration.VariantCount | scripts/sequence_generation.py:107 | `total` is four times the position count |
| SequenceGeneration.VariantCountClosedForm | scripts/sequence_generation.py:138-150 | `total` is `2(w + 1)(w + 2)`, which is also the count the script prints as expected |
| SequenceGeneration.DefaultVariantCount | scripts/sequence_generation.py:26-28 | The configured window 306-327 is valid and yields 1104 variants |
| SequenceGeneration.DeletionNameSpelled | scripts/sequence_generation.py:84 | A deletion is named `RXFP3_del_<s>_<e>_len<n>_<mode>` with 1-based coordinates |
| SequenceGeneration.InsertionNameSpelled | scripts/sequence_generation.py:88 | An insertion is named `RXFP3_ins_at_<p>_len0_<mode>` |
| SequenceGeneration.VariantNameInjective | scripts/sequence_generation.py:93 | Two choices with the same name are the same choice |
| SequenceGeneration.VariantNamesDistinct | scripts/sequence_generation.py:93 | All generated variant names are distinct |
| SequenceGeneration.VariantNameNoSpace | scripts/sequence_generation.py:93 | A variant name is non-empty and has no whitespace, so it is the first word of its header |
| SequenceGeneration.WrapPieces | scripts/sequence_generation.py:117-120 | The 70-column pieces concatenate back to the sequence; each is non-empty and at most 70 long, and all but the last are exactly 70 long |
| SequenceGeneration.WriteWrapped | scripts/sequence_generation.py:119-120 | The wrapping loop writes one line per 70-column piece |
| SequenceGeneration.WriteFasta | scripts/sequence_generation.py:113-120 | The writing loop emits, for each variant, its header line and its wrapped sequence lines |
| SequenceGeneration.HeaderLineRead | scripts/sequence_generation.py:115 | `read_fasta` reading a written header closes the previous record and opens one named after the variant |
| SequenceGeneration.FastaRoundTrip | scripts/sequence_generation.py:113-120 | Reading the written FASTA lines with `read_fasta` gives back each variant's name and sequence, in order |
| SequenceGeneration.GeneratedFastaReadsBack | scripts/sequence_generation.py:113-120 | For residue-letter inputs, `variants.fasta` reads back as the generated variants |
| PtmBatch.FirstPrefixedFrom | scripts/calc_af3_ptm_batch.py:44-48 | The scan finds the first regular file ending in `_summary_confidences.json` at or after the start, or reports that there is none |
| PtmBatch.FindSummaryJson | scripts/calc_af3_ptm_batch.py:32-52 | Nothing is found exactly when the folder is unlisted, or has neither the exact file nor a prefixed summary; the exact name wins; otherwise the first prefixed summary in listing order is returned |
| PtmBatch.PrefixedIsSummary | scripts/calc_af3_ptm_batch.py:45 | Any file this script accepts as a prefixed summary, the analysis tool accepts too |
| PtmBatch.LookupStricter | scripts/calc_af3_ptm_batch.py:32-52 | Whenever this lookup finds a summary, the analysis tool's lookup finds one |
| PtmBatch.LookupsAgreeOnExact | scripts/calc_af3_ptm_batch.py:37-40 | With the exact file present, both lookups return it |
| PtmBatch.LookupMissesUnprefixed | scripts/calc_af3_ptm_batch.py:45 | A folder holding only `foosummary_confidences.json` yields no summary here |
| PtmBatch.AnalyserTakesUnprefixed | scripts/af3_analysis_tool.py:204 | The analysis tool does take `foosummary_confidences.json` from the same folder |
| PtmBatch.ExtractPtm | scripts/calc_af3_ptm_batch.py:20-29 | A pTM is found exactly when the file is readable and has a non-null `ptm` |
| PtmBatch.PtmAgreesWithAnalyser | scripts/calc_af3_ptm_batch.py:25 | The extracted pTM equals the analysis tool's default extraction of `ptm`, and is `None` for an unreadable file |
| PtmBatch.BatchExtractPtm | scripts/calc_af3_ptm_batch.py:55-86 | The batch raises exactly when the main directory cannot be listed; otherwise it writes the `Sample`,`PTM` header and the rows of the sorted subdirectories, and counts them |
| PtmBatch.PtmRowsMembers | scripts/calc_af3_ptm_batch.py:65-77 | A row is present exactly when its sample was visited and has a pTM, which is the row's value |
| PtmBatch.PtmRowsBounded | scripts/calc_af3_ptm_batch.py:65-86 | There are never more rows than subdirectories |
| PtmBatch.PtmRowsSorted | scripts/calc_af3_ptm_batch.py:65 | Visiting sorted names gives rows in sorted sample order |
| PtmBatch.BatchTable | scripts/calc_af3_ptm_batch.py:55-86 | The table's rows are sorted, no more than the subdirectories, and are exactly the subdirectories that have a pTM |
| Lex.Sort | scripts/af3_analysis_tool.py:267 | `sorted()` returns an ascending permutation of its input |
| Lex.SortFirstIsLeast | scripts/af3_analysis_tool.py:123-124 | After `sort()`, element 0 is the least of the list |
| Lex.SortedSet | scripts/af3_analysis_tool.py:352-356 | `sorted(set(...))` is strictly ascending and has exactly the input's elements |
| Text.SplitCount | scripts/af3_runner.py:47 | `split('\n')` gives one more piece than there are separators |
| Paths.BaseNameOfJoin | scripts/af3_runner.py:124 | The basename of `join(dir, name)` is `name` |
| Paths.SplitExtJson | scripts/af3_runner.py:124 | `splitext` of `stem.json` gives the root `stem` when the stem is not all dots (`.json` and `..json` stay whole) |
| Paths.DirNameOfJoin | scripts/af3_runner.py:142 | The dirname of `join(dir, name)` is `dir` without trailing slashes (or `dir` itself when it is only slashes) |
| Listing.NamesOfKind | scripts/af3_analysis_tool.py:254-255 | The names kept are exactly those of entries of the given kind, and there are no more of them than entries |
| Listing.NamesOfKindInOrder | scripts/af3_analysis_tool.py:254-255 | One name per entry of the given kind, in listing order: the k-th name is that of the k-th such entry, whose positions are increasing and cover every entry of that kind |

## Left out

- Processes, the thread pool, the clock, the file system and JSON parsing are not modelled. `nvidia-smi`, each job's outcome, the completion order, the directory tree and the parsed documents are inputs.
- Per-job durations, logging, printing, the report file and the CSV files are not modelled. The CSV files are those of the analysis tool, of the pTM batch and `variants_summary.csv`. The model keeps the rows that would be written.
- `calculate_average_plddt` (Biopython structure parsing) is not modelled. Its result per structure file is an input map.
- The random draws of `generate_random_seeds` are not modelled. They are a function argument whose values are folded into the range 1-99999, so the model does not capture the uniform distribution of `randint`.
- JsonGenerator.ValidAminoAcidSequenceIgnoresCase: upper-casing is modelled for ASCII letters only. Python's Unicode `upper()` (for example `ß` to `SS`) is not modelled.
- Analysis.MergeData and Analysis.ConfidenceRowsWellFormed: the upper-cased field names of the CSV header use the same ASCII-only upper-casing.
- Confidence values that are neither numbers nor `null` are not modelled, and neither are NaN or infinity. Values are reals or `None`.
- JsonGenerator.SequenceValueAccepted: JSON numbers are reals, so `Infinity`, `NaN` or `1e400` cannot be written. Python prints them as `inf`/`nan`, which upper-case to residue letters, so `validate_af3_json` would accept such a sequence value.
- Analysis.FindSummaryJson: a folder that cannot be listed is treated as having no files. Python tests `isfile` on the exact summary path before listing (scripts/af3_analysis_tool.py:197-200), so such a folder holding `summary_confidences.json` yields that path in Python and `None` in the model.
- PtmBatch.FindSummaryJson: the same holds. The exact path is tested before listing (scripts/calc_af3_ptm_batch.py:37-40), and a listing error is swallowed (lines 43-50).
- JsonGenerator.ReadFasta and JsonGenerator.BatchFromFastaDir: a path missing from the file map reads as a missing file, which gives no records and is skipped. In Python a path that exists but cannot be opened or decoded (a directory named `x.fa`, an unreadable file, text that is not UTF-8) raises at `open` or while iterating (scripts/af3_json_generator.py:104-106) and ends the batch. The `os.makedirs` of the output directory (line 124) and of `save_json` (line 86) are not modelled either.
- Exceptions from `open` in `save_json`, in the CSV writers, in the runner's summary report (scripts/af3_runner.py:319) and when creating the output directory of the analysis are not modelled. The exceptions are `makedirs` in `run_single_prediction`, which is modelled as `DirCreateFailed`, and the `listdir` and `makedirs` of `run_batch_predictions`, which are inputs of `Runner.RunBatchPredictions`.
- `AF3_MSA_Extraction.py` is not part of this model, and neither is any command-line `main`. The exception is the success-rate line of the runner's `main`.
- SequenceGeneration.Enumerate, AppendStart, AppendModes and PossibleEnds: each nested loop of the script is a method of its own. The record builder is a function parameter, which `GenerateVariants` fills with `MakeVariant`.
- Analysis.VisitSample and Analysis.MergedRowOf: the body of each outer loop is a method of its own.

## Findings

| source | as written | input that shows it | evidently intended | confidence | as-written member | corrected member |
|---|---|---|---|---|---|---|
| scripts/af3_runner.py:333 | The report divides the success count by `total_tasks`. The same division is at line 440. | An input directory with no valid `.json` file, and an `--output_dir` that already exists (a re-run, say). The run returns three empty buckets before it creates the output directory, so on a fresh one the report's `open` (line 319) raises `FileNotFoundError` first. With an existing one, the report divides by zero and the script dies with `ZeroDivisionError`. | Report a 0% rate, or no rate, for an empty run. | not executed | Runner.EmptyRunReportRaises | Runner.SuccessRatePercent |
| scripts/af3_analysis_tool.py:340-341 | The count of error entries is printed as the number of failed or skipped samples. | One sample folder with neither a structure file nor a summary file. It adds two error entries and is reported as 2 failed samples. | Count each failing sample once. | not executed | Analysis.TallyCountsOneFolderTwice | Analysis.FailedSamplesBounded |
