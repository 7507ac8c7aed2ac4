/**
 * The result analyser (scripts/af3_analysis_tool.py): which structure file and
 * which confidence summary are taken from each prediction folder, what is
 * extracted from the summary, how every folder is accounted for as a row or an
 * error, how the pLDDT and confidence tables are merged, and the quality label
 * each merged sample receives.
 *
 * Parsing structures and averaging their pLDDT values is not modelled: the
 * average of each structure file that yields one is an input map.
 */
module Analysis {
  import opened Base
  import opened Text
  import opened Lex
  import opened Paths
  import opened Seqs
  import opened Listing

  // ------------------------------------------------- find_best_model_file

  predicate IsCif(name: string) { EndsWith(name, ".cif") }

  predicate IsPdb(name: string) { EndsWith(name, ".pdb") }

  /** `'model' in name.lower()` */
  predicate MentionsModel(name: string) { Contains(Lower(name), "model") }

  /** Among the names of one extension: the smallest name mentioning "model",
      or the smallest name when none does. */
  function PickPreferred(names: seq<string>): (r: string)
    requires names != []
    ensures r in names
    ensures MentionsModel(r) <==> exists n :: n in names && MentionsModel(n)
    ensures forall n :: n in names && (MentionsModel(n) || !MentionsModel(r)) ==> !Less(n, r)
  {
    var preferred := Filter(MentionsModel, names);
    if preferred != [] then
      SortFirstIsLeast(preferred);
      Sort(preferred)[0]
    else
      SortFirstIsLeast(names);
      Sort(names)[0]
  }

  /** The extension the choice is made in: CIF whenever a CIF file exists. */
  function ChosenExtension(files: seq<string>): string
  {
    if exists n :: n in files && IsCif(n) then ".cif" else ".pdb"
  }

  /** The structure file chosen among the regular files of a folder. */
  function SelectStructureFile(files: seq<string>): (r: Option<string>)
    ensures r.None? <==> forall n :: n in files ==> !IsCif(n) && !IsPdb(n)
    ensures r.Some? ==> r.value in files && EndsWith(r.value, ChosenExtension(files))
    ensures r.Some? ==>
      (MentionsModel(r.value) <==>
         exists n :: n in files && EndsWith(n, ChosenExtension(files)) && MentionsModel(n))
    ensures r.Some? ==>
      forall n :: n in files && EndsWith(n, ChosenExtension(files)) && (MentionsModel(n) || !MentionsModel(r.value))
        ==> !Less(n, r.value)
  {
    var cif := Filter(IsCif, files);
    var pdb := Filter(IsPdb, files);
    if cif != [] then Some(PickPreferred(cif))
    else if pdb != [] then Some(PickPreferred(pdb))
    else None
  }

  /** No name ends in both `.cif` and `.pdb`. */
  lemma CifPdbExclusive(name: string)
    ensures !(IsCif(name) && IsPdb(name))
  {
    assert IsCif(name) ==> name[|name| - 3] == 'c';
    assert IsPdb(name) ==> name[|name| - 3] == 'p';
  }

  /** A PDB file is chosen only when the folder holds no CIF file. */
  lemma PdbOnlyWithoutCif(files: seq<string>)
    ensures var r := SelectStructureFile(files);
      r.Some? && IsPdb(r.value) ==> forall n :: n in files ==> !IsCif(n)
  {
    var r := SelectStructureFile(files);
    if r.Some? {
      CifPdbExclusive(r.value);
    }
  }

  /** `find_best_model_file`: the chosen file joined to the folder, `None`
      when the folder cannot be listed or holds no structure file. */
  function FindBestModelFile(listings: map<string, seq<Entry>>, folder: string): (r: Option<string>)
    ensures r.None? <==>
      folder !in listings
      || forall n :: Entry(n, RegularFile) in listings[folder] ==> !IsCif(n) && !IsPdb(n)
    ensures r.Some? ==>
      var chosen := SelectStructureFile(NamesOfKind(listings[folder], RegularFile));
      folder in listings && chosen.Some? && r.value == PathJoin(folder, chosen.value)
  {
    match ListDir(listings, folder)
    case None => None
    case Some(entries) =>
      match SelectStructureFile(NamesOfKind(entries, RegularFile))
      case None => None
      case Some(name) => Some(PathJoin(folder, name))
  }

  // ---------------------------------------------------- find_summary_json

  const SummaryName: string := "summary_confidences.json"

  const PrefixedSummarySuffix: string := "_summary_confidences.json"

  /** The test applied to each listed name. */
  predicate IsSummaryCandidate(name: string)
  {
    EndsWith(name, PrefixedSummarySuffix) || EndsWith(name, SummaryName)
  }

  /** The prefixed test adds nothing: every name ending in
      `_summary_confidences.json` also ends in `summary_confidences.json`. */
  lemma SummaryTestsCollapse(name: string)
    ensures IsSummaryCandidate(name) <==> EndsWith(name, SummaryName)
  {
    if EndsWith(name, PrefixedSummarySuffix) {
      assert PrefixedSummarySuffix == "_" + SummaryName;
      EndsWithSuffix(name, "_", SummaryName);
    }
  }

  predicate IsSummaryFile(e: Entry)
  {
    e.kind == RegularFile && IsSummaryCandidate(e.name)
  }

  /** The position of the first summary file of the listing from `i` on. */
  function FirstSummaryFrom(entries: seq<Entry>, i: nat): (r: Option<nat>)
    requires i <= |entries|
    ensures r.Some? ==> i <= r.value < |entries| && IsSummaryFile(entries[r.value])
    ensures r.Some? ==> forall k :: i <= k < r.value ==> !IsSummaryFile(entries[k])
    ensures r.None? ==> forall k :: i <= k < |entries| ==> !IsSummaryFile(entries[k])
    decreases |entries| - i
  {
    if i == |entries| then None
    else if IsSummaryFile(entries[i]) then Some(i)
    else FirstSummaryFrom(entries, i + 1)
  }

  /** `find_summary_json`: the exact summary file when it is a regular file,
      otherwise the first listed regular file whose name ends like one. */
  function FindSummaryJson(listings: map<string, seq<Entry>>, folder: string): (r: Option<string>)
    ensures r.None? <==>
      folder !in listings
      || forall n :: Entry(n, RegularFile) in listings[folder] ==> !EndsWith(n, SummaryName)
    ensures folder in listings && Entry(SummaryName, RegularFile) in listings[folder]
            ==> r == Some(PathJoin(folder, SummaryName))
    ensures r.Some? && Entry(SummaryName, RegularFile) !in listings[folder] ==>
      exists k :: 0 <= k < |listings[folder]|
        && r.value == PathJoin(folder, listings[folder][k].name)
        && IsSummaryFile(listings[folder][k])
        && forall j :: 0 <= j < k ==> !IsSummaryFile(listings[folder][j])
  {
    match ListDir(listings, folder)
    case None => None
    case Some(entries) =>
      if Entry(SummaryName, RegularFile) in entries then Some(PathJoin(folder, SummaryName))
      else
        var first := FirstSummaryFrom(entries, 0);
        assert first.None? ==> forall n :: Entry(n, RegularFile) in entries ==> !EndsWith(n, SummaryName) by {
          forall n | first.None? && Entry(n, RegularFile) in entries ensures !EndsWith(n, SummaryName) {
            var k :| 0 <= k < |entries| && entries[k] == Entry(n, RegularFile);
            assert !IsSummaryFile(entries[k]);
            SummaryTestsCollapse(n);
          }
        }
        if first.Some? then
          SummaryTestsCollapse(entries[first.value].name);
          Some(PathJoin(folder, entries[first.value].name))
        else None
  }

  // ---------------------------------------- extract_confidence_from_json

  /** A parsed summary file: each key with its number, `None` for JSON null. */
  type ConfidenceDoc = map<string, Option<real>>

  const DefaultExtractFields: seq<string> := ["ptm"]

  const DefaultAnalysisFields: seq<string> := ["ptm", "iptm", "ranking_score"]

  /** `data.get(field, None)` */
  function Get(doc: ConfidenceDoc, field: string): Option<real>
  {
    if field in doc then doc[field] else None
  }

  /** The dict extraction returns: exactly the requested fields as keys, each
      with the document's value, `None` where the document lacks it. */
  function Extracted(doc: ConfidenceDoc, fields: seq<string>): (r: map<string, Option<real>>)
    ensures forall f :: f in r <==> f in fields
    ensures forall f :: f in r && f !in doc ==> r[f] == None
    ensures forall f :: f in r && f in doc ==> r[f] == doc[f]
  {
    map f | f in fields :: Get(doc, f)
  }

  /** `extract_confidence_from_json`: `docs` holds every summary file that
      can be read and parsed into a dict; any other file gives `None`. */
  method ExtractConfidenceFromJson(docs: map<string, ConfidenceDoc>, jsonFile: string,
                                   fields: Option<seq<string>>)
    returns (r: Option<map<string, Option<real>>>)
    ensures r.None? <==> jsonFile !in docs
    ensures r.Some? ==>
      r.value == Extracted(docs[jsonFile], if fields.None? then DefaultExtractFields else fields.value)
  {
    var wanted := if fields.None? then DefaultExtractFields else fields.value;
    if jsonFile !in docs {
      return None;
    }
    var data := docs[jsonFile];
    var results: map<string, Option<real>> := map[];
    for i := 0 to |wanted|
      invariant results == Extracted(data, wanted[..i])
    {
      assert wanted[..i + 1] == wanted[..i] + [wanted[i]];
      results := results[wanted[i] := Get(data, wanted[i])];
    }
    assert wanted[..|wanted|] == wanted;
    return Some(results);
  }

  // --------------------------------------------------- analyze_af3_results

  /** Why a folder produced an error entry instead of a row. */
  datatype Problem =
    | NoStructureFile   // no .cif/.pdb file
    | NoPlddt           // the structure yielded no pLDDT average
    | NoSummaryFile     // no summary_confidences file
    | NoConfidence      // unreadable summary, or every requested field missing or null

  predicate IsStructureProblem(p: Problem)
  {
    p == NoStructureFile || p == NoPlddt
  }

  datatype SampleError = SampleError(sample: string, problem: Problem)

  datatype PlddtRow = PlddtRow(sample: string, plddt: real)

  /** A confidence row: the sample, then one value per requested field. */
  datatype ConfidenceRow = ConfidenceRow(sample: string, values: seq<Option<real>>)

  datatype AnalysisResults = AnalysisResults(
    plddtData: seq<PlddtRow>,
    confidenceData: seq<ConfidenceRow>,
    errors: seq<SampleError>)

  const NoAnalysis: AnalysisResults := AnalysisResults([], [], [])

  /** `any(v is not None for v in confidence.values())` */
  predicate AnyValue(confidence: map<string, Option<real>>)
  {
    exists f :: f in confidence && confidence[f].Some?
  }

  /** `[confidence.get(field) for field in fields]` */
  function FieldValues(confidence: map<string, Option<real>>, fields: seq<string>): seq<Option<real>>
    requires forall f :: f in fields ==> f in confidence
  {
    seq(|fields|, i requires 0 <= i < |fields| => confidence[fields[i]])
  }

  /** The first half of one loop iteration: the folder adds a pLDDT row or a
      pLDDT error. */
  function PlddtStep(acc: AnalysisResults, structureFile: Option<string>, plddtOf: map<string, real>,
                     subdir: string): AnalysisResults
  {
    match structureFile
    case None => acc.(errors := acc.errors + [SampleError(subdir, NoStructureFile)])
    case Some(file) =>
      if file in plddtOf then acc.(plddtData := acc.plddtData + [PlddtRow(subdir, plddtOf[file])])
      else acc.(errors := acc.errors + [SampleError(subdir, NoPlddt)])
  }

  /** The second half: the folder adds a confidence row or a confidence error. */
  function ConfidenceStep(acc: AnalysisResults, summaryFile: Option<string>,
                          docs: map<string, ConfidenceDoc>, subdir: string,
                          fields: seq<string>): AnalysisResults
  {
    match summaryFile
    case None => acc.(errors := acc.errors + [SampleError(subdir, NoSummaryFile)])
    case Some(jsonFile) =>
      if jsonFile in docs && AnyValue(Extracted(docs[jsonFile], fields)) then
        var row := ConfidenceRow(subdir, FieldValues(Extracted(docs[jsonFile], fields), fields));
        acc.(confidenceData := acc.confidenceData + [row])
      else acc.(errors := acc.errors + [SampleError(subdir, NoConfidence)])
  }

  /** One loop iteration, for the folder `subdir` of the main directory. */
  function AnalyzeSample(acc: AnalysisResults, listings: map<string, seq<Entry>>, plddtOf: map<string, real>,
                         docs: map<string, ConfidenceDoc>, mainDir: string, subdir: string,
                         fields: seq<string>): AnalysisResults
  {
    var folder := PathJoin(mainDir, subdir);
    ConfidenceStep(PlddtStep(acc, FindBestModelFile(listings, folder), plddtOf, subdir),
                   FindSummaryJson(listings, folder), docs, subdir, fields)
  }

  /** The results after visiting the folders `names` in that order. */
  function Analyzed(listings: map<string, seq<Entry>>, plddtOf: map<string, real>,
                    docs: map<string, ConfidenceDoc>, mainDir: string, names: seq<string>,
                    fields: seq<string>): AnalysisResults
  {
    if names == [] then NoAnalysis
    else
      var before := Analyzed(listings, plddtOf, docs, mainDir, names[..|names| - 1], fields);
      AnalyzeSample(before, listings, plddtOf, docs, mainDir, names[|names| - 1], fields)
  }

  /** The body of the loop of `analyze_af3_results`, for the folder `subdir`. */
  method VisitSample(results: AnalysisResults, listings: map<string, seq<Entry>>, plddtOf: map<string, real>,
                     docs: map<string, ConfidenceDoc>, mainDir: string, subdir: string, wanted: seq<string>)
    returns (next: AnalysisResults)
    ensures next == AnalyzeSample(results, listings, plddtOf, docs, mainDir, subdir, wanted)
  {
    var folder := PathJoin(mainDir, subdir);
    var structureFile := FindBestModelFile(listings, folder);
    next := results;
    if structureFile.Some? {
      if structureFile.value in plddtOf {
        next := next.(plddtData := next.plddtData + [PlddtRow(subdir, plddtOf[structureFile.value])]);
      } else {
        next := next.(errors := next.errors + [SampleError(subdir, NoPlddt)]);
      }
    } else {
      next := next.(errors := next.errors + [SampleError(subdir, NoStructureFile)]);
    }
    assert next == PlddtStep(results, structureFile, plddtOf, subdir);
    ghost var mid := next;
    var jsonFile := FindSummaryJson(listings, folder);
    if jsonFile.Some? {
      var confidence := ExtractConfidenceFromJson(docs, jsonFile.value, Some(wanted));
      if confidence.Some? && AnyValue(confidence.value) {
        var row := ConfidenceRow(subdir, FieldValues(confidence.value, wanted));
        next := next.(confidenceData := next.confidenceData + [row]);
      } else {
        next := next.(errors := next.errors + [SampleError(subdir, NoConfidence)]);
      }
    } else {
      next := next.(errors := next.errors + [SampleError(subdir, NoSummaryFile)]);
    }
    assert next == ConfidenceStep(mid, jsonFile, docs, subdir, wanted);
  }

  /** `analyze_af3_results`: the sub-directories of the main directory visited
      in sorted order. A main directory that cannot be listed ends the program
      (`sys.exit(1)`). */
  method AnalyzeResults(listings: map<string, seq<Entry>>, plddtOf: map<string, real>,
                        docs: map<string, ConfidenceDoc>, mainDir: string, fields: Option<seq<string>>)
    returns (r: Result<AnalysisResults>)
    ensures r.Raises? <==> mainDir !in listings
    ensures r.Ok? ==>
      r.value == Analyzed(listings, plddtOf, docs, mainDir, Sort(NamesOfKind(listings[mainDir], Directory)),
                          if fields.None? then DefaultAnalysisFields else fields.value)
  {
    var wanted := if fields.None? then DefaultAnalysisFields else fields.value;
    if mainDir !in listings {
      return Raises("SystemExit: 1");
    }
    var subdirs := NamesOfKind(listings[mainDir], Directory);
    var results := NoAnalysis;
    if subdirs == [] {
      return Ok(results);
    }
    var order := Sort(subdirs);
    for i := 0 to |order|
      invariant results == Analyzed(listings, plddtOf, docs, mainDir, order[..i], wanted)
    {
      assert order[..i + 1][..i] == order[..i];
      results := VisitSample(results, listings, plddtOf, docs, mainDir, order[i], wanted);
    }
    assert order[..|order|] == order;
    return Ok(results);
  }

  // ---------------------------------------------------------- bookkeeping

  function PlddtSample(row: PlddtRow): string { row.sample }

  function RowSample(row: ConfidenceRow): string { row.sample }

  function ErrorSample(e: SampleError): string { e.sample }

  /** The samples whose pLDDT step failed, with multiplicity. */
  function StructureFailures(errors: seq<SampleError>): multiset<string>
  {
    if errors == [] then multiset{}
    else
      var last := errors[|errors| - 1];
      StructureFailures(errors[..|errors| - 1])
      + (if IsStructureProblem(last.problem) then multiset{last.sample} else multiset{})
  }

  /** The samples whose confidence step failed, with multiplicity. */
  function ConfidenceFailures(errors: seq<SampleError>): multiset<string>
  {
    if errors == [] then multiset{}
    else
      var last := errors[|errors| - 1];
      ConfidenceFailures(errors[..|errors| - 1])
      + (if IsStructureProblem(last.problem) then multiset{} else multiset{last.sample})
  }

  lemma FailuresAppend(errors: seq<SampleError>, e: SampleError)
    ensures StructureFailures(errors + [e])
            == StructureFailures(errors) + (if IsStructureProblem(e.problem) then multiset{e.sample} else multiset{})
    ensures ConfidenceFailures(errors + [e])
            == ConfidenceFailures(errors) + (if IsStructureProblem(e.problem) then multiset{} else multiset{e.sample})
  {
    assert (errors + [e])[..|errors|] == errors;
  }

  /** The pLDDT half adds the folder once to the pLDDT account. */
  lemma PlddtStepAccounts(acc: AnalysisResults, structureFile: Option<string>, plddtOf: map<string, real>,
                          subdir: string)
    ensures var next := PlddtStep(acc, structureFile, plddtOf, subdir);
      && multiset(MapSeq(PlddtSample, next.plddtData)) + StructureFailures(next.errors)
         == multiset(MapSeq(PlddtSample, acc.plddtData)) + StructureFailures(acc.errors) + multiset{subdir}
      && next.confidenceData == acc.confidenceData
      && ConfidenceFailures(next.errors) == ConfidenceFailures(acc.errors)
      && |next.plddtData| + |next.errors| == |acc.plddtData| + |acc.errors| + 1
  {
    var next := PlddtStep(acc, structureFile, plddtOf, subdir);
    if structureFile.Some? && structureFile.value in plddtOf {
      var row := PlddtRow(subdir, plddtOf[structureFile.value]);
      assert next == acc.(plddtData := acc.plddtData + [row]);
      MapSeqAppend(PlddtSample, acc.plddtData, [row]);
      assert MapSeq(PlddtSample, [row]) == [subdir];
    } else {
      var e := SampleError(subdir, if structureFile.None? then NoStructureFile else NoPlddt);
      assert next == acc.(errors := acc.errors + [e]);
      FailuresAppend(acc.errors, e);
    }
  }

  lemma ConfidenceRowAccounts(acc: AnalysisResults, row: ConfidenceRow)
    ensures var next := acc.(confidenceData := acc.confidenceData + [row]);
      multiset(MapSeq(RowSample, next.confidenceData))
      == multiset(MapSeq(RowSample, acc.confidenceData)) + multiset{RowSample(row)}
  {
    MapSeqAppend(RowSample, acc.confidenceData, [row]);
    assert MapSeq(RowSample, [row]) == [RowSample(row)];
  }

  /** The confidence half adds the folder once to the confidence account. */
  lemma ConfidenceStepAccounts(acc: AnalysisResults, summaryFile: Option<string>,
                               docs: map<string, ConfidenceDoc>, subdir: string, fields: seq<string>)
    ensures var next := ConfidenceStep(acc, summaryFile, docs, subdir, fields);
      && multiset(MapSeq(RowSample, next.confidenceData)) + ConfidenceFailures(next.errors)
         == multiset(MapSeq(RowSample, acc.confidenceData)) + ConfidenceFailures(acc.errors) + multiset{subdir}
      && next.plddtData == acc.plddtData
      && StructureFailures(next.errors) == StructureFailures(acc.errors)
      && |next.confidenceData| + |next.errors| == |acc.confidenceData| + |acc.errors| + 1
  {
    var next := ConfidenceStep(acc, summaryFile, docs, subdir, fields);
    if summaryFile.Some? && summaryFile.value in docs && AnyValue(Extracted(docs[summaryFile.value], fields)) {
      var extracted := Extracted(docs[summaryFile.value], fields);
      var row := ConfidenceRow(subdir, FieldValues(extracted, fields));
      assert next == acc.(confidenceData := acc.confidenceData + [row]);
      ConfidenceRowAccounts(acc, row);
    } else {
      var e := SampleError(subdir, if summaryFile.None? then NoSummaryFile else NoConfidence);
      assert next == acc.(errors := acc.errors + [e]);
      FailuresAppend(acc.errors, e);
    }
  }

  /** Every visited folder is accounted for exactly once in the pLDDT account
      (a row or a structure error) and exactly once in the confidence account
      (a row or a confidence error). */
  lemma {:induction false} AnalyzedAccounts(listings: map<string, seq<Entry>>, plddtOf: map<string, real>,
                                            docs: map<string, ConfidenceDoc>, mainDir: string,
                                            names: seq<string>, fields: seq<string>)
    ensures var r := Analyzed(listings, plddtOf, docs, mainDir, names, fields);
      && multiset(MapSeq(PlddtSample, r.plddtData)) + StructureFailures(r.errors) == multiset(names)
      && multiset(MapSeq(RowSample, r.confidenceData)) + ConfidenceFailures(r.errors) == multiset(names)
      && |r.plddtData| + |r.confidenceData| + |r.errors| == 2 * |names|
  {
    if names != [] {
      var init := names[..|names| - 1];
      var last := names[|names| - 1];
      assert names == init + [last];
      AnalyzedAccounts(listings, plddtOf, docs, mainDir, init, fields);
      var before := Analyzed(listings, plddtOf, docs, mainDir, init, fields);
      var folder := PathJoin(mainDir, last);
      var mid := PlddtStep(before, FindBestModelFile(listings, folder), plddtOf, last);
      PlddtStepAccounts(before, FindBestModelFile(listings, folder), plddtOf, last);
      ConfidenceStepAccounts(mid, FindSummaryJson(listings, folder), docs, last, fields);
    }
  }

  /** A confidence row that lines up with `fields` and holds at least one value. */
  predicate RowFits(row: ConfidenceRow, fields: seq<string>)
  {
    |row.values| == |fields| && exists i :: 0 <= i < |row.values| && row.values[i].Some?
  }

  /** The values of an extracted map that holds some value, listed in field order,
      hold that value too. */
  lemma FieldValuesAny(confidence: map<string, Option<real>>, fields: seq<string>)
    requires forall f :: f in confidence <==> f in fields
    requires AnyValue(confidence)
    ensures RowFits(ConfidenceRow("", FieldValues(confidence, fields)), fields)
  {
    var f :| f in confidence && confidence[f].Some?;
    var i :| 0 <= i < |fields| && fields[i] == f;
    assert FieldValues(confidence, fields)[i].Some?;
  }

  lemma ConfidenceStepRowsFit(acc: AnalysisResults, summaryFile: Option<string>,
                              docs: map<string, ConfidenceDoc>, subdir: string, fields: seq<string>)
    requires forall row :: row in acc.confidenceData ==> RowFits(row, fields)
    ensures var next := ConfidenceStep(acc, summaryFile, docs, subdir, fields);
      forall row :: row in next.confidenceData ==> RowFits(row, fields)
  {
    if summaryFile.Some? && summaryFile.value in docs && AnyValue(Extracted(docs[summaryFile.value], fields)) {
      var extracted := Extracted(docs[summaryFile.value], fields);
      FieldValuesAny(extracted, fields);
    }
  }

  /** Every confidence row has one value per requested field, at least one of
      them present, so it lines up with the header
      `["Sample"] + [field.upper() for field in fields]`. */
  lemma {:induction false} ConfidenceRowsWellFormed(listings: map<string, seq<Entry>>, plddtOf: map<string, real>,
                                                    docs: map<string, ConfidenceDoc>, mainDir: string,
                                                    names: seq<string>, fields: seq<string>)
    ensures forall row :: row in Analyzed(listings, plddtOf, docs, mainDir, names, fields).confidenceData ==>
      1 + |row.values| == |["Sample"] + MapSeq(Upper, fields)|
      && exists i :: 0 <= i < |row.values| && row.values[i].Some?
  {
    RowsFit(listings, plddtOf, docs, mainDir, names, fields);
  }

  lemma {:induction false} RowsFit(listings: map<string, seq<Entry>>, plddtOf: map<string, real>,
                                   docs: map<string, ConfidenceDoc>, mainDir: string,
                                   names: seq<string>, fields: seq<string>)
    ensures forall row :: row in Analyzed(listings, plddtOf, docs, mainDir, names, fields).confidenceData ==>
      RowFits(row, fields)
  {
    if names != [] {
      var init := names[..|names| - 1];
      var last := names[|names| - 1];
      RowsFit(listings, plddtOf, docs, mainDir, init, fields);
      var before := Analyzed(listings, plddtOf, docs, mainDir, init, fields);
      var folder := PathJoin(mainDir, last);
      var mid := PlddtStep(before, FindBestModelFile(listings, folder), plddtOf, last);
      assert mid.confidenceData == before.confidenceData;
      ConfidenceStepRowsFit(mid, FindSummaryJson(listings, folder), docs, last, fields);
    }
  }

  // ---------------------------------------------- the tally in save_results

  /** Each error entry is a failure of exactly one of the two steps. */
  lemma {:induction false} ErrorsSplit(errors: seq<SampleError>)
    ensures |StructureFailures(errors)| + |ConfidenceFailures(errors)| == |errors|
  {
    if errors != [] {
      var init := errors[..|errors| - 1];
      ErrorsSplit(init);
    }
  }

  /** The "failed/skipped samples" figure `save_results` prints: one count
      per failed step, pLDDT or confidence, not per sample. */
  function FailedSkippedTally(r: AnalysisResults): (n: nat)
    ensures n == |StructureFailures(r.errors)| + |ConfidenceFailures(r.errors)|
  {
    ErrorsSplit(r.errors);
    |r.errors|
  }

  /** Over a run, the figure is the number of folders whose pLDDT step
      failed plus the number whose confidence step failed. */
  lemma FailedSkippedTallyCountsSteps(listings: map<string, seq<Entry>>, plddtOf: map<string, real>,
                                      docs: map<string, ConfidenceDoc>, mainDir: string,
                                      names: seq<string>, fields: seq<string>)
    ensures var r := Analyzed(listings, plddtOf, docs, mainDir, names, fields);
      && |r.plddtData| <= |names| && |r.confidenceData| <= |names|
      && FailedSkippedTally(r) == (|names| - |r.plddtData|) + (|names| - |r.confidenceData|)
  {
    AnalyzedAccounts(listings, plddtOf, docs, mainDir, names, fields);
    TallyFromAccounts(Analyzed(listings, plddtOf, docs, mainDir, names, fields), names);
  }

  lemma TallyFromAccounts(r: AnalysisResults, names: seq<string>)
    requires multiset(MapSeq(PlddtSample, r.plddtData)) + StructureFailures(r.errors) == multiset(names)
    requires multiset(MapSeq(RowSample, r.confidenceData)) + ConfidenceFailures(r.errors) == multiset(names)
    ensures |r.plddtData| <= |names| && |r.confidenceData| <= |names|
    ensures FailedSkippedTally(r) == (|names| - |r.plddtData|) + (|names| - |r.confidenceData|)
  {
    var plddtSamples := MapSeq(PlddtSample, r.plddtData);
    var rowSamples := MapSeq(RowSample, r.confidenceData);
    assert |multiset(plddtSamples)| == |r.plddtData|;
    assert |multiset(rowSamples)| == |r.confidenceData|;
    assert |multiset(plddtSamples) + StructureFailures(r.errors)| == |names|;
    assert |multiset(rowSamples) + ConfidenceFailures(r.errors)| == |names|;
  }

  /** A folder with neither a structure file nor a summary is reported as two
      failed samples. */
  lemma TallyCountsOneFolderTwice()
    ensures var r := Analyzed(map["out/s" := []], map[], map[], "out", ["s"], DefaultAnalysisFields);
      FailedSkippedTally(r) == 2 && FailedSampleCount(r) == 1
  {
    EmptyFolderErrors();
    OneSampleTwice(Analyzed(map["out/s" := []], map[], map[], "out", ["s"], DefaultAnalysisFields));
  }

  lemma OneSampleTwice(r: AnalysisResults)
    requires r.errors == [SampleError("s", NoStructureFile), SampleError("s", NoSummaryFile)]
    ensures FailedSkippedTally(r) == 2 && FailedSampleCount(r) == 1
  {
    assert (set e | e in r.errors :: e.sample) == {"s"};
  }

  /** The folder `out/s` with no files gives two error entries. */
  lemma EmptyFolderErrors()
    ensures Analyzed(map["out/s" := []], map[], map[], "out", ["s"], DefaultAnalysisFields).errors
            == [SampleError("s", NoStructureFile), SampleError("s", NoSummaryFile)]
  {
    assert "s"[..1] == "s" && "out"[2..] == "t";
    assert PathJoin("out", "s") == "out/s";
    assert FindBestModelFile(map["out/s" := []], "out/s") == None;
    assert FindSummaryJson(map["out/s" := []], "out/s") == None;
  }

  /** The number of distinct samples with at least one error entry. */
  function FailedSampleCount(r: AnalysisResults): (n: nat)
    ensures n <= |r.errors|
  {
    SetOfMapSize(r.errors);
    |set e | e in r.errors :: e.sample|
  }

  lemma {:induction false} SetOfMapSize(errors: seq<SampleError>)
    ensures |set e | e in errors :: e.sample| <= |errors|
  {
    if errors != [] {
      var init := errors[..|errors| - 1];
      SetOfMapSize(init);
      assert (set e | e in errors :: e.sample)
             == (set e | e in init :: e.sample) + {errors[|errors| - 1].sample} by {
        assert errors == init + [errors[|errors| - 1]];
      }
    }
  }

  lemma {:induction false} DistinctNamesBound(names: seq<string>)
    ensures |set n | n in names| <= |names|
  {
    if names != [] {
      var init := names[..|names| - 1];
      DistinctNamesBound(init);
      assert (set n | n in names) == (set n | n in init) + {names[|names| - 1]} by {
        assert names == init + [names[|names| - 1]];
      }
    }
  }

  lemma {:induction false} ErrorSamplesAreFailures(errors: seq<SampleError>, e: SampleError)
    requires e in errors
    ensures e.sample in StructureFailures(errors) + ConfidenceFailures(errors)
  {
    var init := errors[..|errors| - 1];
    if e != errors[|errors| - 1] {
      assert errors == init + [errors[|errors| - 1]];
      ErrorSamplesAreFailures(init, e);
    }
  }

  /** Counted by sample, the failures never outnumber the visited folders. */
  lemma FailedSamplesBounded(listings: map<string, seq<Entry>>, plddtOf: map<string, real>,
                             docs: map<string, ConfidenceDoc>, mainDir: string,
                             names: seq<string>, fields: seq<string>)
    ensures FailedSampleCount(Analyzed(listings, plddtOf, docs, mainDir, names, fields)) <= |names|
  {
    var r := Analyzed(listings, plddtOf, docs, mainDir, names, fields);
    AnalyzedAccounts(listings, plddtOf, docs, mainDir, names, fields);
    var failures := StructureFailures(r.errors) + ConfidenceFailures(r.errors);
    assert StructureFailures(r.errors) <= multiset(names);
    assert ConfidenceFailures(r.errors) <= multiset(names);
    var failed := set e | e in r.errors :: e.sample;
    var named := set n | n in names;
    forall s | s in failed ensures s in named {
      var e :| e in r.errors && e.sample == s;
      ErrorSamplesAreFailures(r.errors, e);
    }
    SubsetSize(failed, named);
    DistinctNamesBound(names);
  }

  lemma SubsetSize(a: set<string>, b: set<string>)
    requires a <= b
    ensures |a| <= |b|
  {
    assert b == a + (b - a);
  }

  // ------------------------------------------------------------ merge_data

  datatype Quality = High | Medium | Low | Unknown

  /** The quality rule of `merge_data`. */
  function Classify(plddt: Option<real>, ptm: Option<real>): (q: Quality)
    ensures q == Unknown <==> plddt.None? || ptm.None?
    ensures q == High <==> plddt.Some? && ptm.Some? && plddt.value > 70.0 && ptm.value > 0.7
    ensures q == Medium <==> plddt.Some? && ptm.Some? && q != High
                             && plddt.value > 50.0 && ptm.value > 0.5 && (plddt.value > 70.0 || ptm.value > 0.7)
    ensures q == Low <==> plddt.Some? && ptm.Some?
                          && (plddt.value <= 50.0 || ptm.value <= 0.5 || (plddt.value <= 70.0 && ptm.value <= 0.7))
  {
    if plddt.Some? && ptm.Some? then
      if plddt.value > 70.0 && ptm.value > 0.7 then High
      else if (plddt.value > 70.0 && ptm.value > 0.5) || (plddt.value > 50.0 && ptm.value > 0.7) then Medium
      else Low
    else Unknown
  }

  function Rank(q: Quality): nat
  {
    match q
    case Unknown => 0
    case Low => 1
    case Medium => 2
    case High => 3
  }

  /** Better scores never give a worse label. */
  lemma ClassifyMonotone(plddt1: real, ptm1: real, plddt2: real, ptm2: real)
    requires plddt1 <= plddt2 && ptm1 <= ptm2
    ensures Rank(Classify(Some(plddt1), Some(ptm1))) <= Rank(Classify(Some(plddt2), Some(ptm2)))
  {
  }

  /** `{row[0]: row[1] for row in plddt_data}`: the last row of a sample wins. */
  function PlddtDict(rows: seq<PlddtRow>): (d: map<string, real>)
    ensures forall s :: s in d <==> s in MapSeq(PlddtSample, rows)
    ensures rows != [] ==> d[rows[|rows| - 1].sample] == rows[|rows| - 1].plddt
  {
    if rows == [] then map[]
    else
      var init := rows[..|rows| - 1];
      var last := rows[|rows| - 1];
      assert rows == init + [last];
      MapSeqAppend(PlddtSample, init, [last]);
      PlddtDict(init)[last.sample := last.plddt]
  }

  /** `dict(zip(fields, values))`: pairs up to the shorter list, a later
      duplicate field winning. */
  function ZipDict(fields: seq<string>, values: seq<Option<real>>): (d: map<string, Option<real>>)
    ensures forall f :: f in d ==> f in fields
    ensures |fields| <= |values| ==> forall f :: f in fields ==> f in d
  {
    if fields == [] || values == [] then map[]
    else map[fields[0] := values[0]] + ZipDict(fields[1..], values[1..])
  }

  /** `{row[0]: dict(zip(fields, row[1:])) for row in confidence_data}` */
  function ConfidenceDict(rows: seq<ConfidenceRow>, fields: seq<string>)
    : (d: map<string, map<string, Option<real>>>)
    ensures forall s :: s in d <==> s in MapSeq(RowSample, rows)
    ensures forall s :: s in d ==> forall f :: f in d[s] ==> f in fields
  {
    if rows == [] then map[]
    else
      var init := rows[..|rows| - 1];
      var last := rows[|rows| - 1];
      assert rows == init + [last];
      MapSeqAppend(RowSample, init, [last]);
      ConfidenceDict(init, fields)[last.sample := ZipDict(fields, last.values)]
  }

  /** Row `i` is the last pLDDT row of its sample. */
  predicate LastPlddtRow(rows: seq<PlddtRow>, i: int)
  {
    0 <= i < |rows| && forall j :: i < j < |rows| ==> rows[j].sample != rows[i].sample
  }

  /** Each sample maps to the pLDDT of its last row. */
  lemma PlddtDictLastWins(rows: seq<PlddtRow>)
    ensures forall i :: LastPlddtRow(rows, i) ==> PlddtDict(rows)[rows[i].sample] == rows[i].plddt
  {
    forall i | LastPlddtRow(rows, i)
      ensures PlddtDict(rows)[rows[i].sample] == rows[i].plddt
    {
      PlddtDictLastRow(rows, i);
    }
  }

  lemma {:induction false} PlddtDictLastRow(rows: seq<PlddtRow>, i: int)
    requires LastPlddtRow(rows, i)
    ensures PlddtDict(rows)[rows[i].sample] == rows[i].plddt
  {
    var n := |rows| - 1;
    PlddtDictSnoc(rows);
    if i < n {
      LastPlddtRowInit(rows, i);
      PlddtDictLastRow(rows[..n], i);
    }
  }

  lemma PlddtDictSnoc(rows: seq<PlddtRow>)
    requires rows != []
    ensures PlddtDict(rows)
            == PlddtDict(rows[..|rows| - 1])[rows[|rows| - 1].sample := rows[|rows| - 1].plddt]
  {
  }

  lemma LastPlddtRowInit(rows: seq<PlddtRow>, i: int)
    requires LastPlddtRow(rows, i) && i < |rows| - 1
    ensures LastPlddtRow(rows[..|rows| - 1], i)
    ensures rows[..|rows| - 1][i] == rows[i] && rows[|rows| - 1].sample != rows[i].sample
  {
    var init := rows[..|rows| - 1];
    forall j | i < j < |init|
      ensures init[j].sample != init[i].sample
    {
      assert init[j] == rows[j];
    }
  }

  /** Field `k` is paired (it has a value) and no later paired field repeats it. */
  predicate LastPairedField(fields: seq<string>, values: seq<Option<real>>, k: int)
  {
    && 0 <= k < |fields| && k < |values|
    && forall j :: k < j < |fields| && j < |values| ==> fields[j] != fields[k]
  }

  /** `zip` pairs the fields up to the shorter list; a field maps to the value
      of its last paired occurrence. */
  lemma ZipDictPairs(fields: seq<string>, values: seq<Option<real>>)
    ensures forall f :: f in ZipDict(fields, values) <==>
              exists k :: 0 <= k < |fields| && k < |values| && fields[k] == f
    ensures forall k :: LastPairedField(fields, values, k) ==> ZipDict(fields, values)[fields[k]] == values[k]
  {
    ZipDictKeys(fields, values);
    forall k | LastPairedField(fields, values, k)
      ensures ZipDict(fields, values)[fields[k]] == values[k]
    {
      ZipDictLastPair(fields, values, k);
    }
  }

  lemma {:induction false} ZipDictKeys(fields: seq<string>, values: seq<Option<real>>)
    ensures forall f :: f in ZipDict(fields, values) <==>
              exists k :: 0 <= k < |fields| && k < |values| && fields[k] == f
  {
    if fields != [] && values != [] {
      var restF := fields[1..];
      var restV := values[1..];
      ZipDictKeys(restF, restV);
      var d := ZipDict(fields, values);
      var rest := ZipDict(restF, restV);
      assert d == map[fields[0] := values[0]] + rest;
      forall f | f in d
        ensures exists k :: 0 <= k < |fields| && k < |values| && fields[k] == f
      {
        if f in rest {
          var k :| 0 <= k < |restF| && k < |restV| && restF[k] == f;
          assert fields[k + 1] == f;
        } else {
          assert fields[0] == f;
        }
      }
      forall f | exists k :: 0 <= k < |fields| && k < |values| && fields[k] == f
        ensures f in d
      {
        var k :| 0 <= k < |fields| && k < |values| && fields[k] == f;
        if k > 0 {
          assert restF[k - 1] == f;
        }
      }
    }
  }

  lemma {:induction false} ZipDictLastPair(fields: seq<string>, values: seq<Option<real>>, k: int)
    requires LastPairedField(fields, values, k)
    ensures fields[k] in ZipDict(fields, values)
    ensures ZipDict(fields, values)[fields[k]] == values[k]
  {
    var restF := fields[1..];
    var restV := values[1..];
    var rest := ZipDict(restF, restV);
    assert ZipDict(fields, values) == map[fields[0] := values[0]] + rest;
    if k > 0 {
      assert LastPairedField(restF, restV, k - 1) by {
        forall j | k - 1 < j < |restF| && j < |restV|
          ensures restF[j] != restF[k - 1]
        {
          assert fields[j + 1] != fields[k];
        }
      }
      ZipDictLastPair(restF, restV, k - 1);
      assert restF[k - 1] == fields[k] && restV[k - 1] == values[k];
      assert fields[k] in rest;
    } else {
      ZipDictKeys(restF, restV);
      forall j | 0 <= j < |restF| && j < |restV|
        ensures restF[j] != fields[0]
      {
        assert restF[j] == fields[j + 1];
      }
      assert fields[0] !in rest;
    }
  }

  /** Row `i` is the last confidence row of its sample. */
  predicate LastConfidenceRow(rows: seq<ConfidenceRow>, i: int)
  {
    0 <= i < |rows| && forall j :: i < j < |rows| ==> rows[j].sample != rows[i].sample
  }

  /** Each sample maps to the zipped fields of its last row. */
  lemma ConfidenceDictLastWins(rows: seq<ConfidenceRow>, fields: seq<string>)
    ensures forall i :: LastConfidenceRow(rows, i) ==>
              ConfidenceDict(rows, fields)[rows[i].sample] == ZipDict(fields, rows[i].values)
  {
    forall i | LastConfidenceRow(rows, i)
      ensures ConfidenceDict(rows, fields)[rows[i].sample] == ZipDict(fields, rows[i].values)
    {
      ConfidenceDictLastRow(rows, fields, i);
    }
  }

  lemma {:induction false} ConfidenceDictLastRow(rows: seq<ConfidenceRow>, fields: seq<string>, i: int)
    requires LastConfidenceRow(rows, i)
    ensures ConfidenceDict(rows, fields)[rows[i].sample] == ZipDict(fields, rows[i].values)
  {
    var n := |rows| - 1;
    ConfidenceDictSnoc(rows, fields);
    if i < n {
      LastConfidenceRowInit(rows, i);
      ConfidenceDictLastRow(rows[..n], fields, i);
    }
  }

  lemma ConfidenceDictSnoc(rows: seq<ConfidenceRow>, fields: seq<string>)
    requires rows != []
    ensures ConfidenceDict(rows, fields)
            == ConfidenceDict(rows[..|rows| - 1], fields)[rows[|rows| - 1].sample := ZipDict(fields, rows[|rows| - 1].values)]
  {
  }

  lemma LastConfidenceRowInit(rows: seq<ConfidenceRow>, i: int)
    requires LastConfidenceRow(rows, i) && i < |rows| - 1
    ensures LastConfidenceRow(rows[..|rows| - 1], i)
    ensures rows[..|rows| - 1][i] == rows[i] && rows[|rows| - 1].sample != rows[i].sample
  {
    var init := rows[..|rows| - 1];
    forall j | i < j < |init|
      ensures init[j].sample != init[i].sample
    {
      assert init[j] == rows[j];
    }
  }

  /** `d.get(key)` on a dict of optional values */
  function Lookup(d: map<string, Option<real>>, key: string): Option<real>
  {
    if key in d then d[key] else None
  }

  /** One merged row: sample, pLDDT, one value per field, quality. */
  datatype MergedRow = MergedRow(sample: string, plddt: Option<real>, values: seq<Option<real>>, quality: Quality)

  function MergedSample(row: MergedRow): string { row.sample }

  function MergedRowFor(sample: string, plddtDict: map<string, real>,
                        confidenceDict: map<string, map<string, Option<real>>>, fields: seq<string>): MergedRow
  {
    var confidence := if sample in confidenceDict then confidenceDict[sample] else map[];
    var plddt := if sample in plddtDict then Some(plddtDict[sample]) else None;
    MergedRow(sample, plddt, seq(|fields|, i requires 0 <= i < |fields| => Lookup(confidence, fields[i])),
              Classify(plddt, Lookup(confidence, "ptm")))
  }

  /** `sorted(set(plddt_dict) | set(confidence_dict))` */
  function MergedSamples(plddtData: seq<PlddtRow>, confidenceData: seq<ConfidenceRow>): (r: seq<string>)
    ensures StrictlySorted(r)
    ensures forall s :: s in r <==> s in MapSeq(PlddtSample, plddtData) || s in MapSeq(RowSample, confidenceData)
  {
    SortedSet(MapSeq(PlddtSample, plddtData) + MapSeq(RowSample, confidenceData))
  }

  function MergedHeader(fields: seq<string>): seq<string>
  {
    ["Sample", "Average_pLDDT"] + MapSeq(Upper, fields) + ["Quality"]
  }

  /** One pass of the loop over `sorted(all_samples)`: the sample, its pLDDT,
      one value per field and the quality class. */
  method MergedRowOf(sample: string, plddtDict: map<string, real>,
                     confidenceDict: map<string, map<string, Option<real>>>, fields: seq<string>)
    returns (row: MergedRow)
    ensures row == MergedRowFor(sample, plddtDict, confidenceDict, fields)
  {
    var plddt := if sample in plddtDict then Some(plddtDict[sample]) else None;
    var confidence := if sample in confidenceDict then confidenceDict[sample] else map[];
    var values := [];
    for j := 0 to |fields|
      invariant |values| == j
      invariant forall k :: 0 <= k < j ==> values[k] == Lookup(confidence, fields[k])
    {
      values := values + [Lookup(confidence, fields[j])];
    }
    row := MergedRow(sample, plddt, values, Classify(plddt, Lookup(confidence, "ptm")));
  }

  /** The loop of `merge_data` over the samples, building each row field by
      field. */
  method MergedRows(samples: seq<string>, plddtDict: map<string, real>,
                    confidenceDict: map<string, map<string, Option<real>>>, fields: seq<string>)
    returns (rows: seq<MergedRow>)
    ensures MapSeq(MergedSample, rows) == samples
    ensures forall i :: 0 <= i < |rows| ==> rows[i] == MergedRowFor(samples[i], plddtDict, confidenceDict, fields)
  {
    rows := [];
    for i := 0 to |samples|
      invariant MapSeq(MergedSample, rows) == samples[..i]
      invariant forall k :: 0 <= k < i ==> rows[k] == MergedRowFor(samples[k], plddtDict, confidenceDict, fields)
    {
      var sample := samples[i];
      var row := MergedRowOf(sample, plddtDict, confidenceDict, fields);
      MapSeqAppend(MergedSample, rows, [row]);
      assert samples[..i + 1] == samples[..i] + [sample];
      rows := rows + [row];
    }
    assert samples[..|samples|] == samples;
  }

  /** `merge_data`: the header and one row per sample of either table, in
      strictly ascending sample order. */
  method MergeData(plddtData: seq<PlddtRow>, confidenceData: seq<ConfidenceRow>, fields: seq<string>)
    returns (header: seq<string>, rows: seq<MergedRow>)
    ensures header == MergedHeader(fields)
    ensures StrictlySorted(MapSeq(MergedSample, rows))
    ensures forall s :: s in MapSeq(MergedSample, rows)
              <==> s in MapSeq(PlddtSample, plddtData) || s in MapSeq(RowSample, confidenceData)
    ensures forall i :: 0 <= i < |rows| ==> 2 + |rows[i].values| + 1 == |header|
    ensures forall i :: 0 <= i < |rows| ==>
      rows[i] == MergedRowFor(rows[i].sample, PlddtDict(plddtData), ConfidenceDict(confidenceData, fields), fields)
  {
    var plddtDict := PlddtDict(plddtData);
    var confidenceDict := ConfidenceDict(confidenceData, fields);
    var samples := MergedSamples(plddtData, confidenceData);
    rows := MergedRows(samples, plddtDict, confidenceDict, fields);
    header := MergedHeader(fields);
    forall i | 0 <= i < |rows| ensures rows[i].sample == samples[i] {
      assert MapSeq(MergedSample, rows)[i] == samples[i];
    }
  }

  /** A sample missing from one table gets `None` there. */
  lemma MissingValuesAreNone(plddtData: seq<PlddtRow>, confidenceData: seq<ConfidenceRow>, fields: seq<string>,
                             sample: string)
    ensures var row := MergedRowFor(sample, PlddtDict(plddtData), ConfidenceDict(confidenceData, fields), fields);
      && (sample !in MapSeq(PlddtSample, plddtData) ==> row.plddt.None? && row.quality == Unknown)
      && (sample !in MapSeq(RowSample, confidenceData) ==>
            (forall i :: 0 <= i < |row.values| ==> row.values[i].None?) && row.quality == Unknown)
  {
  }

  /** Without a `ptm` field no merged sample can be classified. */
  lemma NoPtmFieldMeansUnknown(plddtData: seq<PlddtRow>, confidenceData: seq<ConfidenceRow>, fields: seq<string>,
                               sample: string)
    requires "ptm" !in fields
    ensures MergedRowFor(sample, PlddtDict(plddtData), ConfidenceDict(confidenceData, fields), fields).quality
            == Unknown
  {
  }

  /** The merged pLDDT of a sample is the value of its last pLDDT row. */
  lemma MergedPlddtIsLast(plddtData: seq<PlddtRow>, confidenceData: seq<ConfidenceRow>, fields: seq<string>)
    ensures forall i :: LastPlddtRow(plddtData, i) ==>
              MergedRowFor(plddtData[i].sample, PlddtDict(plddtData), ConfidenceDict(confidenceData, fields), fields).plddt
              == Some(plddtData[i].plddt)
  {
    PlddtDictLastWins(plddtData);
    forall i | LastPlddtRow(plddtData, i)
      ensures plddtData[i].sample in PlddtDict(plddtData)
    {
      assert MapSeq(PlddtSample, plddtData)[i] == plddtData[i].sample;
    }
  }

  /** The merged values of a sample come from its last confidence row: a
      field takes the value at its last paired position in that row. */
  lemma MergedValuesAreLast(plddtData: seq<PlddtRow>, confidenceData: seq<ConfidenceRow>, fields: seq<string>)
    ensures forall i, m :: LastConfidenceRow(confidenceData, i) && LastPairedField(fields, confidenceData[i].values, m) ==>
              MergedRowFor(confidenceData[i].sample, PlddtDict(plddtData), ConfidenceDict(confidenceData, fields), fields)
                .values[m]
              == confidenceData[i].values[m]
  {
    ConfidenceDictLastWins(confidenceData, fields);
    forall i, m | LastConfidenceRow(confidenceData, i) && LastPairedField(fields, confidenceData[i].values, m)
      ensures MergedRowFor(confidenceData[i].sample, PlddtDict(plddtData), ConfidenceDict(confidenceData, fields), fields)
                .values[m]
              == confidenceData[i].values[m]
    {
      var row := confidenceData[i];
      assert MapSeq(RowSample, confidenceData)[i] == row.sample;
      ZipDictPairs(fields, row.values);
      assert fields[m] in ZipDict(fields, row.values);
    }
  }
}
