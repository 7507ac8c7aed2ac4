/**
 * The PTM collector (scripts/calc_af3_ptm_batch.py): which confidence summary
 * is taken from each prediction folder, the `ptm` value read from it, and the
 * two-column table built from the folders, visited in sorted order, that
 * yield one.
 *
 * Reading and parsing JSON is not modelled: `docs` maps each summary file
 * that can be read and parsed into a dict to that dict.
 */
module PtmBatch {
  import opened Base
  import opened Text
  import opened Lex
  import opened Paths
  import opened Seqs
  import opened Listing
  import Analysis

  // ---------------------------------------------------- find_summary_json

  const SummaryName: string := "summary_confidences.json"

  const PrefixedSummarySuffix: string := "_summary_confidences.json"

  /** A listed regular file whose name ends in `_summary_confidences.json`. */
  predicate IsPrefixedSummary(e: Entry)
  {
    e.kind == RegularFile && EndsWith(e.name, PrefixedSummarySuffix)
  }

  /** The position of the first prefixed summary of the listing from `i` on. */
  function FirstPrefixedFrom(entries: seq<Entry>, i: nat): (r: Option<nat>)
    requires i <= |entries|
    ensures r.Some? ==> i <= r.value < |entries| && IsPrefixedSummary(entries[r.value])
    ensures r.Some? ==> forall k :: i <= k < r.value ==> !IsPrefixedSummary(entries[k])
    ensures r.None? ==> forall k :: i <= k < |entries| ==> !IsPrefixedSummary(entries[k])
    decreases |entries| - i
  {
    if i == |entries| then None
    else if IsPrefixedSummary(entries[i]) then Some(i)
    else FirstPrefixedFrom(entries, i + 1)
  }

  /** `find_summary_json`: the exact summary file when it is a regular file,
      otherwise the first listed regular file whose name ends in
      `_summary_confidences.json`; a folder that cannot be listed gives `None`. */
  function FindSummaryJson(listings: map<string, seq<Entry>>, folder: string): (r: Option<string>)
    ensures r.None? <==>
      folder !in listings
      || (Entry(SummaryName, RegularFile) !in listings[folder]
          && forall e :: e in listings[folder] ==> !IsPrefixedSummary(e))
    ensures folder in listings && Entry(SummaryName, RegularFile) in listings[folder]
            ==> r == Some(PathJoin(folder, SummaryName))
    ensures r.Some? && Entry(SummaryName, RegularFile) !in listings[folder] ==>
      exists k :: 0 <= k < |listings[folder]|
        && r.value == PathJoin(folder, listings[folder][k].name)
        && IsPrefixedSummary(listings[folder][k])
        && forall j :: 0 <= j < k ==> !IsPrefixedSummary(listings[folder][j])
  {
    match ListDir(listings, folder)
    case None => None
    case Some(entries) =>
      if Entry(SummaryName, RegularFile) in entries then Some(PathJoin(folder, SummaryName))
      else
        match FirstPrefixedFrom(entries, 0)
        case None => None
        case Some(k) => Some(PathJoin(folder, entries[k].name))
  }

  /** A prefixed summary is a summary file to the analyser too. */
  lemma PrefixedIsSummary(e: Entry)
    requires IsPrefixedSummary(e)
    ensures Analysis.IsSummaryFile(e) && EndsWith(e.name, Analysis.SummaryName)
  {
    assert PrefixedSummarySuffix == Analysis.PrefixedSummarySuffix;
    Analysis.SummaryTestsCollapse(e.name);
  }

  /** Every summary this lookup finds, the analyser's lookup finds too. */
  lemma LookupStricter(listings: map<string, seq<Entry>>, folder: string)
    ensures FindSummaryJson(listings, folder).Some? ==> Analysis.FindSummaryJson(listings, folder).Some?
  {
    if folder in listings && Entry(SummaryName, RegularFile) !in listings[folder] {
      var entries := listings[folder];
      var first := FirstPrefixedFrom(entries, 0);
      if first.Some? {
        var e := entries[first.value];
        PrefixedIsSummary(e);
        assert Entry(e.name, RegularFile) in entries;
        AnalyserFinds(listings, folder, e.name);
      }
    }
  }

  /** A listed regular file ending in `summary_confidences.json` makes the
      analyser's lookup succeed. */
  lemma AnalyserFinds(listings: map<string, seq<Entry>>, folder: string, name: string)
    requires folder in listings && Entry(name, RegularFile) in listings[folder]
    requires EndsWith(name, Analysis.SummaryName)
    ensures Analysis.FindSummaryJson(listings, folder).Some?
  {
  }

  /** When the exact summary file is present both lookups return it. */
  lemma LookupsAgreeOnExact(listings: map<string, seq<Entry>>, folder: string)
    requires folder in listings && Entry(SummaryName, RegularFile) in listings[folder]
    ensures FindSummaryJson(listings, folder) == Analysis.FindSummaryJson(listings, folder)
    ensures FindSummaryJson(listings, folder) == Some(PathJoin(folder, SummaryName))
  {
    assert Analysis.SummaryName == SummaryName;
  }

  const UnprefixedName: string := "foosummary_confidences.json"

  const UnprefixedListing: map<string, seq<Entry>> := map["out/s" := [Entry(UnprefixedName, RegularFile)]]

  /** A summary named without the underscore is missed here ... */
  lemma LookupMissesUnprefixed()
    ensures FindSummaryJson(UnprefixedListing, "out/s") == None
  {
    var e := Entry(UnprefixedName, RegularFile);
    assert e.name[|e.name| - |PrefixedSummarySuffix|..] == "osummary_confidences.json";
    assert !IsPrefixedSummary(e);
    assert UnprefixedListing["out/s"] == [e];
  }

  /** ... but taken by the analyser. */
  lemma AnalyserTakesUnprefixed()
    ensures Analysis.FindSummaryJson(UnprefixedListing, "out/s") == Some(PathJoin("out/s", UnprefixedName))
  {
    var e := Entry(UnprefixedName, RegularFile);
    var entries := UnprefixedListing["out/s"];
    assert entries == [e];
    assert e.name[|e.name| - |Analysis.SummaryName|..] == Analysis.SummaryName;
    assert Entry(Analysis.SummaryName, RegularFile) !in entries;
    assert Analysis.IsSummaryFile(e);
    assert Analysis.FirstSummaryFrom(entries, 0) == Some(0);
  }

  // ----------------------------------------------- extract_ptm_from_json

  /** `extract_ptm_from_json`: the `ptm` entry of the parsed summary, `None`
      when it is absent, null, or the file cannot be read and parsed. */
  function ExtractPtm(docs: map<string, Analysis.ConfidenceDoc>, jsonFile: string): (r: Option<real>)
    ensures r.Some? <==> jsonFile in docs && "ptm" in docs[jsonFile] && docs[jsonFile]["ptm"].Some?
  {
    if jsonFile in docs then Analysis.Get(docs[jsonFile], "ptm") else None
  }

  /** The value read here is the `ptm` entry the analyser extracts with its
      default fields. */
  lemma PtmAgreesWithAnalyser(docs: map<string, Analysis.ConfidenceDoc>, jsonFile: string)
    ensures jsonFile in docs ==>
      "ptm" in Analysis.Extracted(docs[jsonFile], Analysis.DefaultExtractFields)
      && ExtractPtm(docs, jsonFile) == Analysis.Extracted(docs[jsonFile], Analysis.DefaultExtractFields)["ptm"]
    ensures jsonFile !in docs ==> ExtractPtm(docs, jsonFile) == None
  {
    if jsonFile in docs {
      assert "ptm" in Analysis.DefaultExtractFields;
    }
  }

  // --------------------------------------------------- batch_extract_ptm

  /** What one folder contributes: its `ptm`, when a summary is found and
      holds one. */
  function PtmOf(listings: map<string, seq<Entry>>, docs: map<string, Analysis.ConfidenceDoc>,
                 folder: string): Option<real>
  {
    match FindSummaryJson(listings, folder)
    case None => None
    case Some(jsonFile) => ExtractPtm(docs, jsonFile)
  }

  datatype PtmRow = PtmRow(sample: string, ptm: real)

  function RowSample(row: PtmRow): string { row.sample }

  /** `results` after visiting the folders `names` in that order. */
  function PtmRows(listings: map<string, seq<Entry>>, docs: map<string, Analysis.ConfidenceDoc>,
                   mainDir: string, names: seq<string>): seq<PtmRow>
  {
    if names == [] then []
    else
      var last := names[|names| - 1];
      var before := PtmRows(listings, docs, mainDir, names[..|names| - 1]);
      match PtmOf(listings, docs, PathJoin(mainDir, last))
      case None => before
      case Some(ptm) => before + [PtmRow(last, ptm)]
  }

  /** The table written to the CSV file: the header, the rows, and the count
      printed at the end. */
  datatype PtmTable = PtmTable(header: seq<string>, rows: seq<PtmRow>, count: nat)

  /** `batch_extract_ptm`: the sub-directories of the main directory visited in
      sorted order; a main directory that cannot be listed raises. */
  method BatchExtractPtm(listings: map<string, seq<Entry>>, docs: map<string, Analysis.ConfidenceDoc>,
                         mainDir: string)
    returns (r: Result<PtmTable>)
    ensures r.Raises? <==> mainDir !in listings
    ensures r.Ok? ==>
      && r.value.header == ["Sample", "PTM"]
      && r.value.rows == PtmRows(listings, docs, mainDir, Sort(NamesOfKind(listings[mainDir], Directory)))
      && r.value.count == |r.value.rows|
  {
    if mainDir !in listings {
      return Raises("FileNotFoundError");
    }
    var subdirs := NamesOfKind(listings[mainDir], Directory);
    var order := Sort(subdirs);
    var results: seq<PtmRow> := [];
    for i := 0 to |order|
      invariant results == PtmRows(listings, docs, mainDir, order[..i])
    {
      assert order[..i + 1][..i] == order[..i];
      var subdir := order[i];
      var jsonFile := FindSummaryJson(listings, PathJoin(mainDir, subdir));
      if jsonFile.Some? {
        var ptm := ExtractPtm(docs, jsonFile.value);
        if ptm.Some? {
          results := results + [PtmRow(subdir, ptm.value)];
        }
      }
    }
    assert order[..|order|] == order;
    return Ok(PtmTable(["Sample", "PTM"], results, |results|));
  }

  /** A row is written for a folder exactly when it yields a `ptm`, and the row
      carries that value; `0.0` is a value like any other. */
  lemma {:induction false} PtmRowsMembers(listings: map<string, seq<Entry>>, docs: map<string, Analysis.ConfidenceDoc>,
                                          mainDir: string, names: seq<string>)
    ensures forall row :: row in PtmRows(listings, docs, mainDir, names) <==>
      row.sample in names && PtmOf(listings, docs, PathJoin(mainDir, row.sample)) == Some(row.ptm)
  {
    if names != [] {
      var init, last := names[..|names| - 1], names[|names| - 1];
      PtmRowsMembers(listings, docs, mainDir, init);
      assert names == init + [last];
      assert forall n :: n in names <==> n in init || n == last;
    }
  }

  /** At most one row per folder. */
  lemma {:induction false} PtmRowsBounded(listings: map<string, seq<Entry>>, docs: map<string, Analysis.ConfidenceDoc>,
                                          mainDir: string, names: seq<string>)
    ensures |PtmRows(listings, docs, mainDir, names)| <= |names|
  {
    if names != [] {
      PtmRowsBounded(listings, docs, mainDir, names[..|names| - 1]);
    }
  }

  /** Visiting the folders in sorted order writes the rows in sorted order. */
  lemma {:induction false} PtmRowsSorted(listings: map<string, seq<Entry>>, docs: map<string, Analysis.ConfidenceDoc>,
                                         mainDir: string, names: seq<string>)
    requires Sorted(names)
    ensures Sorted(MapSeq(RowSample, PtmRows(listings, docs, mainDir, names)))
  {
    if names != [] {
      var init, last := names[..|names| - 1], names[|names| - 1];
      var before := PtmRows(listings, docs, mainDir, init);
      PtmRowsSorted(listings, docs, mainDir, init);
      var p := PtmOf(listings, docs, PathJoin(mainDir, last));
      if p.Some? {
        PtmRowsMembers(listings, docs, mainDir, init);
        var samples := MapSeq(RowSample, before);
        forall i | 0 <= i < |samples| ensures !Less(last, samples[i]) {
          assert before[i] in before;
          var k :| 0 <= k < |init| && init[k] == samples[i];
          assert names[k] == samples[i];
        }
        MapSeqAppend(RowSample, before, [PtmRow(last, p.value)]);
        assert MapSeq(RowSample, [PtmRow(last, p.value)]) == [last];
        AppendSorted(samples, last);
      }
    }
  }

  lemma AppendSorted(s: seq<string>, x: string)
    requires Sorted(s)
    requires forall i :: 0 <= i < |s| ==> !Less(x, s[i])
    ensures Sorted(s + [x])
  {
  }

  /** The table the batch writes: sorted rows, one per folder that yields a
      `ptm`, and a count equal to the number of rows. */
  lemma BatchTable(listings: map<string, seq<Entry>>, docs: map<string, Analysis.ConfidenceDoc>, mainDir: string)
    requires mainDir in listings
    ensures var names := Sort(NamesOfKind(listings[mainDir], Directory));
      var rows := PtmRows(listings, docs, mainDir, names);
      && Sorted(MapSeq(RowSample, rows))
      && |rows| <= |names|
      && forall row :: row in rows <==>
           Entry(row.sample, Directory) in listings[mainDir]
           && PtmOf(listings, docs, PathJoin(mainDir, row.sample)) == Some(row.ptm)
  {
    var subdirs := NamesOfKind(listings[mainDir], Directory);
    var names := Sort(subdirs);
    PtmRowsSorted(listings, docs, mainDir, names);
    PtmRowsBounded(listings, docs, mainDir, names);
    PtmRowsMembers(listings, docs, mainDir, names);
    forall n ensures n in names <==> n in subdirs {
      assert n in names <==> n in multiset(names);
      assert n in subdirs <==> n in multiset(subdirs);
    }
  }
}
