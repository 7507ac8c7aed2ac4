/**
 * The input builder (scripts/af3_json_generator.py): random model seeds, the
 * amino-acid check, the AlphaFold3 input record built from named sequences,
 * the validator applied before saving, the FASTA reader, and the batch
 * conversion of a directory of FASTA files.
 *
 * The random generator and the file system are parameters: `draw` supplies the
 * generator's raw draws, a FASTA file is the list of its lines, and batch mode
 * returns the files it would write instead of writing them.
 */
module JsonGenerator {
  import opened Base
  import opened Text
  import opened Paths
  import opened Seqs
  import opened JsonValue
  import Runner

  // --------------------------------------------------- generate_random_seeds

  /** `generate_random_seeds(n)`: `random.randint(1, 99999)` drawn `n` times
      (no seed at all when `n` is not positive). The i-th draw of the generator
      is `draw(i)`, folded into the range. */
  function GenerateRandomSeeds(numSeeds: int, draw: nat -> nat): (seeds: seq<nat>)
    ensures |seeds| == if numSeeds > 0 then numSeeds else 0
    ensures forall i :: 0 <= i < |seeds| ==> 1 <= seeds[i] <= 99999
  {
    seq(if numSeeds > 0 then numSeeds else 0, i requires 0 <= i => 1 + draw(i) % 99999)
  }

  // ---------------------------------------------- validate_amino_acid_sequence

  /** `validate_amino_acid_sequence` on a string: every character of its upper
      case form is one of the twenty standard letters. */
  predicate ValidAminoAcidSequence(sequence: string)
  {
    forall i :: 0 <= i < |Upper(sequence)| ==> IsStandardResidue(Upper(sequence)[i])
  }

  /** Lower-case letters pass too, and so does the empty string. */
  lemma ValidAminoAcidSequenceIgnoresCase(sequence: string)
    ensures ValidAminoAcidSequence(sequence) <==> ValidAminoAcidSequence(Upper(sequence))
    ensures ValidAminoAcidSequence([])
  {
    assert forall i :: 0 <= i < |sequence| ==> UpperChar(UpperChar(sequence[i])) == UpperChar(sequence[i]);
    assert Upper(Upper(sequence)) == Upper(sequence);
  }

  /** `validate_amino_acid_sequence(value)` on a parsed JSON value, which it
      first turns into text with `str()`: booleans print as `True`/`False` and
      null as `None`; a finite number, list or dict prints a digit, bracket or
      brace, none of which is a residue letter. Non-finite numbers (which would
      print as `inf` or `nan`, and so pass) are not representable in `Json`. */
  predicate SequenceValueAccepted(v: Json)
  {
    match v
    case JStr(s) => ValidAminoAcidSequence(s)
    case JBool(b) => ValidAminoAcidSequence(if b then "True" else "False")
    case JNull => ValidAminoAcidSequence("None")
    case _ => false
  }

  /** JSON `false` passes as the sequence `FALSE`; `true` (U) and `null` (O)
      do not. */
  lemma PrintedConstants()
    ensures SequenceValueAccepted(JBool(false))
    ensures !SequenceValueAccepted(JBool(true))
    ensures !SequenceValueAccepted(JNull)
  {
    assert Upper("False") == "FALSE";
    assert Upper("True") == "TRUE";
    assert Upper("True")[2] == 'U';
    assert Upper("None") == "NONE";
    assert Upper("None")[1] == 'O';
  }

  // ------------------------------------------------------ validate_af3_json

  /** One element of `sequences`: a dict with a `protein` dict holding a
      `sequence` that passes the amino-acid check. */
  predicate ValidAf3Entry(entry: Json)
  {
    && entry.JObj?
    && "protein" in entry.fields
    && entry.fields["protein"].JObj?
    && "sequence" in entry.fields["protein"].fields
    && SequenceValueAccepted(entry.fields["protein"].fields["sequence"])
  }

  /** `validate_af3_json`: the three required keys, the dialect, a non-empty
      list of valid entries. `version` is only required to be present. Any
      value that is not a dict where one is expected fails an `in` test or
      raises, and either way the answer is false. */
  predicate ValidateAf3Json(data: Json)
  {
    && data.JObj?
    && "sequences" in data.fields && "dialect" in data.fields && "version" in data.fields
    && data.fields["dialect"] == JStr("alphafold3")
    && data.fields["sequences"].JArr?
    && |data.fields["sequences"].items| > 0
    && forall i :: 0 <= i < |data.fields["sequences"].items| ==> ValidAf3Entry(data.fields["sequences"].items[i])
  }

  // -------------------------------------------------- create_af3_input_json

  /** An `{"id": ..., "sequence": ...}` dict, as `read_fasta` returns them. */
  datatype SequenceRecord = SequenceRecord(id: string, sequence: string)

  function ProteinEntry(r: SequenceRecord): Json
  {
    JObj(map["protein" := JObj(map["id" := JStr(r.id), "sequence" := JStr(r.sequence)])])
  }

  function SeedValue(seed: nat): Json
  {
    JNum(seed as real)
  }

  /** `create_af3_input_json`: the record naming the complex, its seeds, one
      protein entry per input sequence, the dialect and version 1. */
  function CreateAf3InputJson(complexId: string, sequences: seq<SequenceRecord>, numSeeds: int,
                              draw: nat -> nat): (r: Json)
    ensures r.JObj? && r.fields.Keys == {"name", "modelSeeds", "sequences", "dialect", "version"}
    ensures r.fields["name"] == JStr(complexId)
    ensures r.fields["dialect"] == JStr("alphafold3") && r.fields["version"] == JNum(1.0)
    ensures r.fields["sequences"].JArr? && |r.fields["sequences"].items| == |sequences|
    ensures forall i :: 0 <= i < |sequences| ==>
      var entry := r.fields["sequences"].items[i];
      entry.JObj? && entry.fields.Keys == {"protein"}
      && entry.fields["protein"] == JObj(map["id" := JStr(sequences[i].id), "sequence" := JStr(sequences[i].sequence)])
    ensures r.fields["modelSeeds"].JArr?
      && |r.fields["modelSeeds"].items| == (if numSeeds > 0 then numSeeds else 0)
      && forall i :: 0 <= i < |r.fields["modelSeeds"].items| ==>
           exists s: nat :: 1 <= s <= 99999 && r.fields["modelSeeds"].items[i] == SeedValue(s)
  {
    var seeds := GenerateRandomSeeds(numSeeds, draw);
    var result := JObj(map[
      "name" := JStr(complexId),
      "modelSeeds" := JArr(MapSeq(SeedValue, seeds)),
      "sequences" := JArr(MapSeq(ProteinEntry, sequences)),
      "dialect" := JStr("alphafold3"),
      "version" := JNum(1.0)]);
    assert forall i :: 0 <= i < |seeds| ==> result.fields["modelSeeds"].items[i] == SeedValue(seeds[i]);
    result
  }

  /** The generator's own validator accepts what it builds exactly when there
      is at least one sequence and every sequence passes the amino-acid check. */
  lemma CreatedInputValidIff(complexId: string, sequences: seq<SequenceRecord>, numSeeds: int, draw: nat -> nat)
    ensures ValidateAf3Json(CreateAf3InputJson(complexId, sequences, numSeeds, draw))
            <==> |sequences| > 0 && forall i :: 0 <= i < |sequences| ==> ValidAminoAcidSequence(sequences[i].sequence)
  {
    var items := CreateAf3InputJson(complexId, sequences, numSeeds, draw).fields["sequences"].items;
    assert forall i :: 0 <= i < |sequences| ==>
      (ValidAf3Entry(items[i]) <==> ValidAminoAcidSequence(sequences[i].sequence));
  }

  /** The runner's check of a job file, applied to a built record: it is case
      sensitive, so it asks for upper-case standard letters only. */
  lemma RunnerAcceptsCreatedIff(complexId: string, sequences: seq<SequenceRecord>, numSeeds: int,
                                draw: nat -> nat)
    ensures Runner.ValidateJsonFile(Some(CreateAf3InputJson(complexId, sequences, numSeeds, draw)))
            <==> |sequences| > 0
                 && forall i, j :: 0 <= i < |sequences| && 0 <= j < |sequences[i].sequence| ==>
                      IsStandardResidue(sequences[i].sequence[j])
  {
    var data := CreateAf3InputJson(complexId, sequences, numSeeds, draw);
    Runner.ValidateJsonFileIff(Some(data));
    var items := data.fields["sequences"].items;
    forall i | 0 <= i < |sequences|
      ensures Runner.EntryAccepted(items[i])
              <==> forall j :: 0 <= j < |sequences[i].sequence| ==> IsStandardResidue(sequences[i].sequence[j])
    {
      CreatedEntryAccepted(items[i], sequences[i]);
    }
  }

  /** The runner accepts a built entry exactly when its sequence is made of
      upper-case standard letters. */
  lemma CreatedEntryAccepted(entry: Json, record: SequenceRecord)
    requires entry.JObj? && "protein" in entry.fields
    requires entry.fields["protein"] == JObj(map["id" := JStr(record.id), "sequence" := JStr(record.sequence)])
    ensures Runner.EntryAccepted(entry)
            <==> forall j :: 0 <= j < |record.sequence| ==> IsStandardResidue(record.sequence[j])
  {
    assert entry.fields["protein"].fields["sequence"] == JStr(record.sequence);
  }

  /** Upper-case standard letters are left alone by `upper()`. */
  lemma StandardLettersValid(s: string)
    requires forall j :: 0 <= j < |s| ==> IsStandardResidue(s[j])
    ensures ValidAminoAcidSequence(s)
  {
    forall j | 0 <= j < |s| ensures IsStandardResidue(Upper(s)[j]) {
      StandardIsUpper(s[j]);
    }
  }

  lemma StandardIsUpper(c: char)
    requires IsStandardResidue(c)
    ensures UpperChar(c) == c
  {
    assert c in StandardResidues;
    var k :| 0 <= k < |StandardResidues| && StandardResidues[k] == c;
    assert 'A' <= StandardResidues[k] <= 'Y';
  }

  /** Whatever the runner accepts, the generator's validator accepts too. */
  lemma RunnerAcceptanceImpliesValid(complexId: string, sequences: seq<SequenceRecord>, numSeeds: int,
                                     draw: nat -> nat)
    requires Runner.ValidateJsonFile(Some(CreateAf3InputJson(complexId, sequences, numSeeds, draw)))
    ensures ValidateAf3Json(CreateAf3InputJson(complexId, sequences, numSeeds, draw))
  {
    RunnerAcceptsCreatedIff(complexId, sequences, numSeeds, draw);
    CreatedInputValidIff(complexId, sequences, numSeeds, draw);
    forall i | 0 <= i < |sequences| ensures ValidAminoAcidSequence(sequences[i].sequence) {
      StandardLettersValid(sequences[i].sequence);
    }
  }

  /** A lower-case letter is not one of the twenty residue letters. */
  lemma LowerNotStandard(c: char)
    requires 'a' <= c <= 'z'
    ensures !IsStandardResidue(c)
  {
    if IsStandardResidue(c) {
      StandardIsUpper(c);
      assert false;
    }
  }

  /** The converse fails: a record that passes the generator's check but holds
      a lower-case letter is saved, and the runner refuses the saved file. */
  lemma LowerCaseSavedButNotRun(complexId: string, sequences: seq<SequenceRecord>, numSeeds: int,
                                draw: nat -> nat, i: nat, j: nat)
    requires forall k :: 0 <= k < |sequences| ==> ValidAminoAcidSequence(sequences[k].sequence)
    requires i < |sequences| && j < |sequences[i].sequence| && 'a' <= sequences[i].sequence[j] <= 'z'
    ensures var data := CreateAf3InputJson(complexId, sequences, numSeeds, draw);
      ValidateAf3Json(data) && !Runner.ValidateJsonFile(Some(data))
  {
    CreatedInputValidIff(complexId, sequences, numSeeds, draw);
    RunnerAcceptsCreatedIff(complexId, sequences, numSeeds, draw);
    LowerNotStandard(sequences[i].sequence[j]);
  }

  // -------------------------------------------------------------- read_fasta

  /** Where the line loop of `read_fasta` stands: the records closed so far,
      the open record's id and its sequence lines. */
  datatype FastaState = FastaState(records: seq<SequenceRecord>, currentId: Option<string>, currentSeq: seq<string>)

  const FastaStart: FastaState := FastaState([], None, [])

  /** A header line, once stripped. */
  predicate IsHeaderLine(raw: string)
  {
    StartsWith(Strip(raw), ">")
  }

  /** The records with the open record closed. */
  function CloseRecord(st: FastaState): seq<SequenceRecord>
  {
    if st.currentId.Some? then st.records + [SequenceRecord(st.currentId.value, Concat(st.currentSeq))]
    else st.records
  }

  /** One line of the loop. A header with no word after `>` raises IndexError. */
  function FastaStep(st: FastaState, raw: string): Result<FastaState>
  {
    var line := Strip(raw);
    if line == [] then Ok(st)
    else if StartsWith(line, ">") then
      match FirstToken(line[1..])
      case None => Raises("IndexError: list index out of range")
      case Some(id) => Ok(FastaState(CloseRecord(st), Some(id), []))
    else Ok(st.(currentSeq := st.currentSeq + [line]))
  }

  /** The state after the given lines, or the exception one of them raised. */
  function FastaScan(lines: seq<string>): Result<FastaState>
  {
    if lines == [] then Ok(FastaStart)
    else
      match FastaScan(lines[..|lines| - 1])
      case Raises(e) => Raises(e)
      case Ok(st) => FastaStep(st, lines[|lines| - 1])
  }

  /** Reading one more line takes one more step from the state reached so far. */
  lemma ScanSnoc(lines: seq<string>, last: string)
    ensures FastaScan(lines + [last])
            == (match FastaScan(lines)
                case Raises(e) => Raises(e)
                case Ok(st) => FastaStep(st, last))
  {
    assert (lines + [last])[..|lines|] == lines;
  }

  /** The loop continued from state `st` over further lines. */
  function FastaRun(st: FastaState, lines: seq<string>): Result<FastaState>
    decreases |lines|
  {
    if lines == [] then Ok(st)
    else
      match FastaStep(st, lines[0])
      case Raises(e) => Raises(e)
      case Ok(next) => FastaRun(next, lines[1..])
  }

  /** Reading a file in two parts: the second part continues from where the first stopped. */
  lemma {:induction false} ScanAppend(prefix: seq<string>, rest: seq<string>)
    ensures FastaScan(prefix + rest)
            == (match FastaScan(prefix)
                case Raises(e) => Raises(e)
                case Ok(st) => FastaRun(st, rest))
    decreases |rest|
  {
    if rest == [] {
      assert prefix + rest == prefix;
    } else {
      var next := prefix + [rest[0]];
      assert prefix + rest == next + rest[1..];
      ScanAppend(next, rest[1..]);
      ScanSnoc(prefix, rest[0]);
    }
  }

  /** What `read_fasta` returns for a file with these lines, `None` standing
      for a path that does not exist. */
  function ReadFastaResult(lines: Option<seq<string>>): Result<seq<SequenceRecord>>
  {
    if lines.None? then Ok([])
    else
      match FastaScan(lines.value)
      case Raises(e) => Raises(e)
      case Ok(st) => Ok(CloseRecord(st))
  }

  lemma {:induction false} ScanStaysRaised(lines: seq<string>, k: nat)
    requires k <= |lines| && FastaScan(lines[..k]).Raises?
    ensures FastaScan(lines) == FastaScan(lines[..k])
    decreases |lines| - k
  {
    if k < |lines| {
      assert lines[..k + 1][..k] == lines[..k];
      ScanStaysRaised(lines, k + 1);
    } else {
      assert lines[..k] == lines;
    }
  }

  /** `read_fasta`: the loop over the lines of the file. */
  method ReadFasta(lines: Option<seq<string>>) returns (r: Result<seq<SequenceRecord>>)
    ensures r == ReadFastaResult(lines)
  {
    if lines.None? {
      return Ok([]);
    }
    var sequences: seq<SequenceRecord> := [];
    var currentId: Option<string> := None;
    var currentSeq: seq<string> := [];
    for i := 0 to |lines.value|
      invariant FastaScan(lines.value[..i]) == Ok(FastaState(sequences, currentId, currentSeq))
    {
      assert lines.value[..i + 1][..i] == lines.value[..i];
      ghost var st := FastaState(sequences, currentId, currentSeq);
      assert FastaScan(lines.value[..i + 1]) == FastaStep(st, lines.value[i]);
      var line := Strip(lines.value[i]);
      if line != [] {
        if StartsWith(line, ">") {
          if currentId.Some? {
            sequences := sequences + [SequenceRecord(currentId.value, Concat(currentSeq))];
          }
          var token := FirstToken(line[1..]);
          if token.None? {
            ScanStaysRaised(lines.value, i + 1);
            return Raises("IndexError: list index out of range");
          }
          currentId := token;
          currentSeq := [];
          assert FastaStep(st, lines.value[i]) == Ok(FastaState(sequences, currentId, currentSeq));
        } else {
          currentSeq := currentSeq + [line];
        }
      }
    }
    assert lines.value[..|lines.value|] == lines.value;
    if currentId.Some? {
      sequences := sequences + [SequenceRecord(currentId.value, Concat(currentSeq))];
    }
    return Ok(sequences);
  }

  /** A stripped header has no word after `>` exactly when it is `>` alone. */
  lemma BareHeader(raw: string)
    requires IsHeaderLine(raw)
    ensures FirstToken(Strip(raw)[1..]).None? <==> Strip(raw) == ">"
  {
    var line := Strip(raw);
    if |line| > 1 {
      assert line[1..][|line| - 2] == line[|line| - 1];
    }
  }

  /** One line raises exactly when it is a bare `>`. */
  lemma StepRaisesIff(st: FastaState, raw: string)
    ensures FastaStep(st, raw).Raises? <==> Strip(raw) == ">"
  {
    if IsHeaderLine(raw) {
      BareHeader(raw);
    } else {
      assert Strip(raw) != ">";
    }
  }

  /** Some line of the file is a bare `>`. */
  predicate HasBareHeader(lines: seq<string>)
  {
    exists i :: 0 <= i < |lines| && Strip(lines[i]) == ">"
  }

  lemma BareHeaderAppend(init: seq<string>, last: string)
    ensures HasBareHeader(init + [last]) <==> HasBareHeader(init) || Strip(last) == ">"
  {
    var lines := init + [last];
    if HasBareHeader(init) {
      var i :| 0 <= i < |init| && Strip(init[i]) == ">";
      assert lines[i] == init[i];
    }
    if HasBareHeader(lines) {
      var i :| 0 <= i < |lines| && Strip(lines[i]) == ">";
      if i < |init| {
        assert init[i] == lines[i];
      }
    }
    assert lines[|init|] == last;
  }

  /** The scan raises exactly when some line is a bare `>`. */
  lemma {:induction false} ScanRaisesIff(lines: seq<string>)
    ensures FastaScan(lines).Raises? <==> HasBareHeader(lines)
  {
    if lines != [] {
      var init := lines[..|lines| - 1];
      var last := lines[|lines| - 1];
      assert lines == init + [last];
      BareHeaderAppend(init, last);
      ScanRaisesIff(init);
      if FastaScan(init).Ok? {
        StepRaisesIff(FastaScan(init).value, last);
      }
    }
  }

  /** `read_fasta` raises exactly when some line is a bare `>`. */
  lemma ReadFastaRaisesIff(lines: seq<string>)
    ensures ReadFastaResult(Some(lines)).Raises? <==> exists i :: 0 <= i < |lines| && Strip(lines[i]) == ">"
  {
    ScanRaisesIff(lines);
  }

  /** Number of header lines. */
  function HeaderCount(lines: seq<string>): nat
  {
    if lines == [] then 0
    else HeaderCount(lines[..|lines| - 1]) + (if IsHeaderLine(lines[|lines| - 1]) then 1 else 0)
  }

  lemma {:induction false} ScanCountsHeaders(lines: seq<string>)
    requires FastaScan(lines).Ok?
    ensures var st := FastaScan(lines).value;
      |st.records| + (if st.currentId.Some? then 1 else 0) == HeaderCount(lines)
      && (HeaderCount(lines) > 0 ==> st.currentId.Some?)
  {
    if lines != [] {
      ScanCountsHeaders(lines[..|lines| - 1]);
      var last := Strip(lines[|lines| - 1]);
      if last != [] && StartsWith(last, ">") {
        assert IsHeaderLine(lines[|lines| - 1]);
      }
    }
  }

  /** One record per header line: lines before the first header and blank
      lines make none. */
  lemma OneRecordPerHeader(lines: seq<string>)
    requires ReadFastaResult(Some(lines)).Ok?
    ensures |ReadFastaResult(Some(lines)).value| == HeaderCount(lines)
  {
    ScanCountsHeaders(lines);
  }

  /** What one line is to the loop of `read_fasta`, once stripped: blank, a
      header with the first word after `>` (if any), or residue text. */
  datatype LineKind = BlankLine | HeaderLine(word: Option<string>) | ResidueLine(text: string)

  function KindOf(raw: string): LineKind
  {
    var line := Strip(raw);
    if line == [] then BlankLine
    else if StartsWith(line, ">") then HeaderLine(FirstToken(line[1..]))
    else ResidueLine(line)
  }

  /** The loop step, by the kind of the line. */
  function KindStep(st: FastaState, kind: LineKind): Result<FastaState>
  {
    match kind
    case BlankLine => Ok(st)
    case HeaderLine(None) => Raises("IndexError: list index out of range")
    case HeaderLine(Some(id)) => Ok(FastaState(CloseRecord(st), Some(id), []))
    case ResidueLine(text) => Ok(st.(currentSeq := st.currentSeq + [text]))
  }

  /** A line is a header line exactly when its kind is `HeaderLine`, and the
      loop does to it what its kind says. */
  lemma StepByKind(st: FastaState, raw: string)
    ensures KindOf(raw).HeaderLine? <==> IsHeaderLine(raw)
    ensures FastaStep(st, raw) == KindStep(st, KindOf(raw))
  {
  }

  /** The positions of the header lines, in file order. */
  function HeaderIndices(kinds: seq<LineKind>): (hs: seq<nat>)
    ensures forall k :: 0 <= k < |hs| ==> hs[k] < |kinds|
    ensures forall k :: 0 <= k < |hs| - 1 ==> hs[k] < hs[k + 1]
  {
    TrueIndices(seq(|kinds|, i requires 0 <= i < |kinds| => kinds[i].HeaderLine?))
  }

  /** `HeaderIndices` lists exactly the header lines of a file. */
  lemma HeaderIndicesExact(lines: seq<string>)
    ensures forall k :: 0 <= k < |HeaderIndices(MapSeq(KindOf, lines))| ==>
              IsHeaderLine(lines[HeaderIndices(MapSeq(KindOf, lines))[k]])
    ensures forall i :: 0 <= i < |lines| && IsHeaderLine(lines[i]) ==> i in HeaderIndices(MapSeq(KindOf, lines))
  {
    var kinds := MapSeq(KindOf, lines);
    var flags := seq(|kinds|, i requires 0 <= i < |kinds| => kinds[i].HeaderLine?);
    TrueIndicesExact(flags);
    forall i | 0 <= i < |lines|
      ensures flags[i] == IsHeaderLine(lines[i])
    {
      StepByKind(FastaStart, lines[i]);
    }
  }

  /** One more line adds its position when it is a header. */
  lemma HeaderIndicesSnoc(kinds: seq<LineKind>, last: LineKind)
    ensures HeaderIndices(kinds + [last]) == HeaderIndices(kinds) + (if last.HeaderLine? then [|kinds|] else [])
  {
    var all := kinds + [last];
    var flags := seq(|all|, i requires 0 <= i < |all| => all[i].HeaderLine?);
    assert flags[..|kinds|] == seq(|kinds|, i requires 0 <= i < |kinds| => kinds[i].HeaderLine?);
  }

  /** The residue text of the given lines, in order. */
  function ResidueTexts(kinds: seq<LineKind>): seq<string>
  {
    if kinds == [] then []
    else
      var last := kinds[|kinds| - 1];
      ResidueTexts(kinds[..|kinds| - 1]) + (if last.ResidueLine? then [last.text] else [])
  }

  lemma ResidueTextsSnoc(kinds: seq<LineKind>, last: LineKind)
    ensures ResidueTexts(kinds + [last]) == ResidueTexts(kinds) + (if last.ResidueLine? then [last.text] else [])
  {
    assert (kinds + [last])[..|kinds|] == kinds;
  }

  /** The first word of a header, `line[1:].split()[0]`. */
  function HeaderWord(kind: LineKind): string
  {
    if kind.HeaderLine? && kind.word.Some? then kind.word.value else []
  }

  /** The record of the header at `start`: its first word and the residue
      text of the lines after it, up to `end`. */
  function BlockRecord(kinds: seq<LineKind>, start: nat, end: nat): SequenceRecord
    requires start < end <= |kinds|
  {
    SequenceRecord(HeaderWord(kinds[start]), Concat(ResidueTexts(kinds[start + 1..end])))
  }

  /** Where the block of the k-th header ends: at the next header, or at the
      end of the file. */
  function BlockEnd(hs: seq<nat>, k: nat, n: nat): nat
  {
    if k + 1 < |hs| then hs[k + 1] else n
  }

  lemma BlockRecordSnoc(kinds: seq<LineKind>, last: LineKind, start: nat, end: nat)
    requires start < end <= |kinds|
    ensures BlockRecord(kinds + [last], start, end) == BlockRecord(kinds, start, end)
  {
    assert (kinds + [last])[start + 1..end] == kinds[start + 1..end];
    assert (kinds + [last])[start] == kinds[start];
  }

  /** The state of the loop in terms of the header lines read so far: a
      record for every header but the last, which is still open. */
  predicate ScanInvariant(kinds: seq<LineKind>, st: FastaState)
  {
    var hs := HeaderIndices(kinds);
    if hs == [] then st.records == [] && st.currentId.None?
    else
      && |st.records| == |hs| - 1
      && (forall k :: 0 <= k < |hs| - 1 ==> st.records[k] == BlockRecord(kinds, hs[k], hs[k + 1]))
      && st.currentId == Some(HeaderWord(kinds[hs[|hs| - 1]]))
      && st.currentSeq == ResidueTexts(kinds[hs[|hs| - 1] + 1..])
  }

  /** The loop run over the kinds of the lines. */
  function KindScan(kinds: seq<LineKind>): Result<FastaState>
  {
    if kinds == [] then Ok(FastaStart)
    else
      match KindScan(kinds[..|kinds| - 1])
      case Raises(e) => Raises(e)
      case Ok(st) => KindStep(st, kinds[|kinds| - 1])
  }

  /** Running the loop over the lines is running it over their kinds. */
  lemma {:induction false} ScanByKinds(lines: seq<string>)
    ensures FastaScan(lines) == KindScan(MapSeq(KindOf, lines))
  {
    if lines != [] {
      var init := lines[..|lines| - 1];
      var last := lines[|lines| - 1];
      assert lines == init + [last];
      ScanSnoc(init, last);
      ScanByKinds(init);
      MapSeqAppend(KindOf, init, [last]);
      var kinds := MapSeq(KindOf, init);
      var kinds1 := MapSeq(KindOf, lines);
      assert kinds1 == kinds + [KindOf(last)];
      assert kinds1[..|kinds1| - 1] == kinds;
      if FastaScan(init).Ok? {
        StepByKind(FastaScan(init).value, last);
      }
    }
  }

  /** The loop keeps `ScanInvariant`. */
  lemma {:induction false} ScanState(kinds: seq<LineKind>)
    requires KindScan(kinds).Ok?
    ensures ScanInvariant(kinds, KindScan(kinds).value)
  {
    if kinds != [] {
      var init := kinds[..|kinds| - 1];
      var last := kinds[|kinds| - 1];
      assert kinds == init + [last];
      ScanState(init);
      var before := KindScan(init).value;
      if last.HeaderLine? {
        InvariantOnHeader(init, last, before);
      } else {
        InvariantOnOther(init, last, before);
      }
    }
  }

  /** Records of blocks already closed stay as they were when more lines follow. */
  lemma ClosedBlocksSnoc(kinds: seq<LineKind>, last: LineKind, records: seq<SequenceRecord>)
    requires |records| == |HeaderIndices(kinds)| - 1
    requires forall k :: 0 <= k < |HeaderIndices(kinds)| - 1 ==>
               records[k] == BlockRecord(kinds, HeaderIndices(kinds)[k], HeaderIndices(kinds)[k + 1])
    ensures forall k :: 0 <= k < |HeaderIndices(kinds)| - 1 ==>
              records[k] == BlockRecord(kinds + [last], HeaderIndices(kinds)[k], HeaderIndices(kinds)[k + 1])
  {
    var hs := HeaderIndices(kinds);
    forall k | 0 <= k < |hs| - 1
      ensures records[k] == BlockRecord(kinds + [last], hs[k], hs[k + 1])
    {
      BlockRecordSnoc(kinds, last, hs[k], hs[k + 1]);
    }
  }

  /** A header line closes the open record, which then spans the lines up
      to this header. */
  lemma ClosedBlocksOnHeader(kinds: seq<LineKind>, last: LineKind, before: FastaState)
    requires ScanInvariant(kinds, before) && last.HeaderLine? && HeaderIndices(kinds) != []
    ensures |CloseRecord(before)| == |HeaderIndices(kinds + [last])| - 1
    ensures forall k :: 0 <= k < |HeaderIndices(kinds + [last])| - 1 ==>
              CloseRecord(before)[k]
              == BlockRecord(kinds + [last], HeaderIndices(kinds + [last])[k], HeaderIndices(kinds + [last])[k + 1])
  {
    var all := kinds + [last];
    HeaderIndicesSnoc(kinds, last);
    var hs0 := HeaderIndices(kinds);
    var hs := HeaderIndices(all);
    assert hs == hs0 + [|kinds|];
    ClosedBlocksSnoc(kinds, last, before.records);
    var h := hs0[|hs0| - 1];
    assert all[h + 1..|kinds|] == kinds[h + 1..];
    assert all[h] == kinds[h];
    var closed := BlockRecord(all, h, |kinds|);
    var records := CloseRecord(before);
    assert records == before.records + [closed];
    forall k | 0 <= k < |hs| - 1
      ensures records[k] == BlockRecord(all, hs[k], hs[k + 1])
    {
      if k < |hs0| - 1 {
        assert records[k] == before.records[k];
        assert hs[k] == hs0[k] && hs[k + 1] == hs0[k + 1];
      } else {
        assert records[k] == closed;
        assert hs[k] == h && hs[k + 1] == |kinds|;
      }
    }
  }

  /** A header line closes the open record and opens the next. */
  lemma InvariantOnHeader(kinds: seq<LineKind>, last: LineKind, before: FastaState)
    requires ScanInvariant(kinds, before) && last.HeaderLine? && KindStep(before, last).Ok?
    ensures ScanInvariant(kinds + [last], KindStep(before, last).value)
  {
    var all := kinds + [last];
    var st := KindStep(before, last).value;
    assert st == FastaState(CloseRecord(before), Some(HeaderWord(last)), []);
    HeaderIndicesSnoc(kinds, last);
    var hs := HeaderIndices(all);
    assert hs[|hs| - 1] == |kinds|;
    assert all[|kinds|] == last;
    assert all[|kinds| + 1..] == [];
    if HeaderIndices(kinds) != [] {
      ClosedBlocksOnHeader(kinds, last, before);
    } else {
      assert |hs| == 1 && st.records == [];
    }
  }

  /** The open block, from header `h` on, gains the residue text of one more line. */
  lemma OpenBlockSnoc(kinds: seq<LineKind>, last: LineKind, h: nat)
    requires h < |kinds|
    ensures (kinds + [last])[h] == kinds[h]
    ensures ResidueTexts((kinds + [last])[h + 1..])
            == ResidueTexts(kinds[h + 1..]) + (if last.ResidueLine? then [last.text] else [])
  {
    assert (kinds + [last])[h + 1..] == kinds[h + 1..] + [last];
    ResidueTextsSnoc(kinds[h + 1..], last);
  }

  /** Any other line leaves the closed records alone and extends the open one. */
  lemma InvariantOnOther(kinds: seq<LineKind>, last: LineKind, before: FastaState)
    requires ScanInvariant(kinds, before) && !last.HeaderLine?
    ensures ScanInvariant(kinds + [last], KindStep(before, last).value)
  {
    var more := if last.ResidueLine? then [last.text] else [];
    if last.ResidueLine? {
      assert KindStep(before, last).value == FastaState(before.records, before.currentId, before.currentSeq + more);
    } else {
      assert before.currentSeq + more == before.currentSeq;
      assert KindStep(before, last).value == FastaState(before.records, before.currentId, before.currentSeq + more);
    }
    OpenBlockExtended(kinds, last, before);
  }

  lemma OpenBlockExtended(kinds: seq<LineKind>, last: LineKind, before: FastaState)
    requires ScanInvariant(kinds, before) && !last.HeaderLine?
    ensures ScanInvariant(kinds + [last],
                          FastaState(before.records, before.currentId,
                                     before.currentSeq + (if last.ResidueLine? then [last.text] else [])))
  {
    var all := kinds + [last];
    var st := FastaState(before.records, before.currentId,
                         before.currentSeq + (if last.ResidueLine? then [last.text] else []));
    HeaderIndicesSnoc(kinds, last);
    var hs := HeaderIndices(kinds);
    assert HeaderIndices(all) == hs;
    if hs != [] {
      ClosedBlocksSnoc(kinds, last, before.records);
      var h := hs[|hs| - 1];
      OpenBlockSnoc(kinds, last, h);
      assert st.currentId == Some(HeaderWord(all[h]));
      assert st.currentSeq == ResidueTexts(all[h + 1..]);
    }
  }

  /** One record per header line: the k-th is the record of the block
      that runs from the k-th header to the next header or the end. */
  predicate RecordsByBlock(kinds: seq<LineKind>, records: seq<SequenceRecord>)
  {
    var hs := HeaderIndices(kinds);
    && |records| == |hs|
    && forall k :: 0 <= k < |hs| ==> records[k] == BlockRecord(kinds, hs[k], BlockEnd(hs, k, |kinds|))
  }

  /** Closing the open record of a state that keeps `ScanInvariant` gives
      one record per header. */
  lemma CloseRecordBlocks(kinds: seq<LineKind>, st: FastaState)
    requires ScanInvariant(kinds, st)
    ensures RecordsByBlock(kinds, CloseRecord(st))
  {
    var hs := HeaderIndices(kinds);
    if hs == [] {
      return;
    }
    var h := hs[|hs| - 1];
    var final := SequenceRecord(HeaderWord(kinds[h]), Concat(st.currentSeq));
    var recs := CloseRecord(st);
    assert recs == st.records + [final];
    assert kinds[h + 1..|kinds|] == kinds[h + 1..];
    assert final == BlockRecord(kinds, h, |kinds|);
    forall k | 0 <= k < |hs|
      ensures recs[k] == BlockRecord(kinds, hs[k], BlockEnd(hs, k, |kinds|))
    {
      if k < |hs| - 1 {
        assert recs[k] == st.records[k];
      } else {
        assert recs[k] == final;
      }
    }
  }

  /** What `read_fasta` returns for any file it reads without raising: the
      k-th record is named after the first word of the k-th header line and
      holds the residue text of the lines from there to the next header (or
      the end of the file), stripped and joined. Lines before the first
      header make no record. */
  lemma ReadFastaRecords(lines: seq<string>)
    requires ReadFastaResult(Some(lines)).Ok?
    ensures RecordsByBlock(MapSeq(KindOf, lines), ReadFastaResult(Some(lines)).value)
  {
    ScanByKinds(lines);
    ScanState(MapSeq(KindOf, lines));
    CloseRecordBlocks(MapSeq(KindOf, lines), FastaScan(lines).value);
  }

  // ---------------------------------------------------- batch_from_fasta_dir

  /** `name.lower().endswith((".fa", ".fasta", ".faa"))` */
  predicate IsFastaName(name: string)
  {
    var lower := Lower(name);
    EndsWith(lower, ".fa") || EndsWith(lower, ".fasta") || EndsWith(lower, ".faa")
  }

  /** A JSON file the batch writes. */
  datatype Written = Written(path: string, data: Json)

  /** `files` holds the lines of every existing file, by path. */
  function FileLines(files: map<string, seq<string>>, path: string): Option<seq<string>>
  {
    if path in files then Some(files[path]) else None
  }

  /** The generator's draws while the k-th listed name is converted. */
  function SeedDraws(draw: (nat, nat) -> nat, k: nat): nat -> nat
  {
    i => draw(k, i)
  }

  /** What one listed name contributes: nothing, one written file, or the
      exception its FASTA raised (which ends the batch). The seeds of the k-th
      name come from `draw(k, _)`. */
  function BatchItem(inputDir: string, outputDir: string, files: map<string, seq<string>>, name: string,
                     k: nat, draw: (nat, nat) -> nat): Result<Option<Written>>
  {
    if !IsFastaName(name) then Ok(None)
    else
      var base := SplitExtRoot(name);
      match ReadFastaResult(FileLines(files, PathJoin(inputDir, name)))
      case Raises(e) => Raises(e)
      case Ok(seqs) =>
        if seqs == [] then Ok(None)
        else
          var af3 := CreateAf3InputJson(base, seqs, 100, SeedDraws(draw, k));
          if ValidateAf3Json(af3) then Ok(Some(Written(PathJoin(outputDir, base + ".json"), af3)))
          else Ok(None)
  }

  /** The batch so far, extended by what the next name contributes. */
  function Extend(done: Result<seq<Written>>, item: Result<Option<Written>>): Result<seq<Written>>
  {
    match done
    case Raises(e) => Raises(e)
    case Ok(files) =>
      match item
      case Raises(e) => Raises(e)
      case Ok(w) => Ok(files + (if w.Some? then [w.value] else []))
  }

  /** The files written for the listed names, in listing order. */
  function BatchWritten(inputDir: string, outputDir: string, files: map<string, seq<string>>,
                        names: seq<string>, draw: (nat, nat) -> nat): Result<seq<Written>>
  {
    if names == [] then Ok([])
    else
      Extend(BatchWritten(inputDir, outputDir, files, names[..|names| - 1], draw),
             BatchItem(inputDir, outputDir, files, names[|names| - 1], |names| - 1, draw))
  }

  lemma {:induction false} BatchStaysRaised(inputDir: string, outputDir: string, files: map<string, seq<string>>,
                                            names: seq<string>, draw: (nat, nat) -> nat, k: nat)
    requires k <= |names| && BatchWritten(inputDir, outputDir, files, names[..k], draw).Raises?
    ensures BatchWritten(inputDir, outputDir, files, names, draw)
            == BatchWritten(inputDir, outputDir, files, names[..k], draw)
    decreases |names| - k
  {
    if k < |names| {
      assert names[..k + 1][..k] == names[..k];
      BatchStaysRaised(inputDir, outputDir, files, names, draw, k + 1);
    } else {
      assert names[..k] == names;
    }
  }

  lemma BatchWrittenStep(inputDir: string, outputDir: string, files: map<string, seq<string>>,
                         names: seq<string>, draw: (nat, nat) -> nat, k: nat)
    requires k < |names|
    ensures BatchWritten(inputDir, outputDir, files, names[..k + 1], draw)
            == Extend(BatchWritten(inputDir, outputDir, files, names[..k], draw),
                      BatchItem(inputDir, outputDir, files, names[k], k, draw))
  {
    var upTo := names[..k + 1];
    assert |upTo| - 1 == k;
    assert upTo[..|upTo| - 1] == names[..k];
    assert upTo[|upTo| - 1] == names[k];
  }

  /** `batch_from_fasta_dir`: `None` as the listing stands for an input
      directory that cannot be listed. */
  method BatchFromFastaDir(inputDir: string, outputDir: string, listing: Option<seq<string>>,
                           files: map<string, seq<string>>, draw: (nat, nat) -> nat)
    returns (r: Result<seq<Written>>)
    ensures listing.None? ==> r.Raises?
    ensures listing.Some? ==> r == BatchWritten(inputDir, outputDir, files, listing.value, draw)
  {
    if listing.None? {
      return Raises("FileNotFoundError");
    }
    var names := listing.value;
    var written: seq<Written> := [];
    for k := 0 to |names|
      invariant BatchWritten(inputDir, outputDir, files, names[..k], draw) == Ok(written)
    {
      assert names[..k + 1][..k] == names[..k];
      var name := names[k];
      ghost var before := written;
      ghost var item: Option<Written> := None;
      if IsFastaName(name) {
        var base := SplitExtRoot(name);
        var seqs := ReadFasta(FileLines(files, PathJoin(inputDir, name)));
        if seqs.Raises? {
          BatchStaysRaised(inputDir, outputDir, files, names, draw, k + 1);
          return Raises(seqs.error);
        }
        if seqs.value != [] {
          var af3 := CreateAf3InputJson(base, seqs.value, 100, SeedDraws(draw, k));
          if ValidateAf3Json(af3) {
            var file := Written(PathJoin(outputDir, base + ".json"), af3);
            written := written + [file];
            item := Some(file);
          }
        }
      }
      assert BatchItem(inputDir, outputDir, files, name, k, draw) == Ok(item);
      assert written == before + (if item.Some? then [item.value] else []);
      BatchWrittenStep(inputDir, outputDir, files, names, draw, k);
    }
    assert names[..|names|] == names;
    return Ok(written);
  }

  /** Every written file passed validation and is named after a FASTA file of
      the listing, as `<output_dir>/<base>.json`. */
  lemma {:induction false} WrittenFilesValid(inputDir: string, outputDir: string, files: map<string, seq<string>>,
                                             names: seq<string>, draw: (nat, nat) -> nat)
    requires BatchWritten(inputDir, outputDir, files, names, draw).Ok?
    ensures forall w :: w in BatchWritten(inputDir, outputDir, files, names, draw).value ==>
      ValidateAf3Json(w.data)
      && exists k :: 0 <= k < |names| && IsFastaName(names[k])
           && w.path == PathJoin(outputDir, SplitExtRoot(names[k]) + ".json")
  {
    if names != [] {
      var init := names[..|names| - 1];
      WrittenFilesValid(inputDir, outputDir, files, init, draw);
      assert forall k :: 0 <= k < |init| ==> init[k] == names[k];
    }
  }

  /** A FASTA file is converted exactly when it reads without error into at
      least one record and all its sequences pass the amino-acid check. */
  lemma BatchItemWrittenIff(inputDir: string, outputDir: string, files: map<string, seq<string>>, name: string,
                            k: nat, draw: (nat, nat) -> nat)
    requires IsFastaName(name)
    ensures var item := BatchItem(inputDir, outputDir, files, name, k, draw);
      var read := ReadFastaResult(FileLines(files, PathJoin(inputDir, name)));
      && (item.Raises? <==> read.Raises?)
      && (item.Ok? && item.value.Some? <==>
            read.Ok? && |read.value| > 0
            && forall i :: 0 <= i < |read.value| ==> ValidAminoAcidSequence(read.value[i].sequence))
  {
    var read := ReadFastaResult(FileLines(files, PathJoin(inputDir, name)));
    if read.Ok? && read.value != [] {
      CreatedInputValidIff(SplitExtRoot(name), read.value, 100, SeedDraws(draw, k));
    }
  }
}
