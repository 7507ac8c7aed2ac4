/**
 * The variant generator (scripts/sequence_generation.py): every way of
 * replacing a stretch of a window of the base sequence (possibly an empty
 * stretch, which makes it an insertion) by the insert, under each of four
 * linker arrangements; the number of such variants in closed form; and the
 * 70-column FASTA file they are written to.
 *
 * The script's editable constants are the fields of `Settings`, the values it
 * ships with are `DefaultSettings`, and the FASTA file is returned as its lines.
 */
module SequenceGeneration {
  import opened Base
  import opened Text
  import opened Seqs
  import opened JsonGenerator

  // ---------------------------------------------------------------- settings

  /** The parameters at the head of the script: the base sequence, the insert,
      the 1-based inclusive window and the two linkers. */
  datatype Settings = Settings(base: string, insert: string, regionStart: int, regionEnd: int,
                               linkerN: string, linkerC: string)

  const Rxfp3: string :=
    "HHHHHHHHHHQMADAATIATMNKAAGGDKLAELFSLVPDLLEAANKTSGNASLQLPDL"
    + "WWELGLELPDGAPPGHPPGSGGAESADTEARVRILISVVYWVVCALGLAGNLLVLYLMKSMQGWRKSSINLFV"
    + "TNLALTDFQFVLTLPFWAVENALDFKWPFGKAMCKIVSMVTSMNMYASVFFLTAMSVTRYHSVASALKSHRTRG"
    + "HGRGDCCGRSLGDSCCFSAKALCVWIWALAALASLPSAIFSTTVKVMGEELCLVRFPDKLLGRDRQFWLGLYHS"
    + "QKVLLGFVLPLGIIILCYLLLVRFIADRRAAGTKGGAAVAGGRPTGASARRLSKVTKSVTIVVLSFFLCWLPNQ"
    + "ALTTWSILIKFNAVPFSQEYFLCQVYAFPVSVCLAHSNSCLNPVLYCLVRREFRKALKSLLWRIASPSITSMRP"
    + "FTATTKPEHEDQGLQAPAPPHAAAEPDLLYYPPGVVVYSGGRYDLLPSSSAY"

  const Bril: string :=
    "ADLEDNWETLNDNLKVIEKADNAAQVKDALTKMRAAALDAQKATPPKLEDKSPDSPEMKDFRHGFDILVGQ"
    + "IDDALKLANEGKVKEAQAAAEQLKTTRNAYIQKYL"

  const DefaultSettings: Settings := Settings(Rxfp3, Bril, 306, 327, "ARRQL", "ARSTL")

  /** The four entries of `linker_modes`, in key order. */
  datatype Mode = NoLinker | NLinker | CLinker | BothLinker

  const ModeOrder: seq<Mode> := [NoLinker, NLinker, CLinker, BothLinker]

  function ModeName(m: Mode): string
  {
    match m
    case NoLinker => "none"
    case NLinker => "N_linker"
    case CLinker => "C_linker"
    case BothLinker => "both_linker"
  }

  function NLinkerOf(st: Settings, m: Mode): string
  {
    if m == NLinker || m == BothLinker then st.linkerN else ""
  }

  function CLinkerOf(st: Settings, m: Mode): string
  {
    if m == CLinker || m == BothLinker then st.linkerC else ""
  }

  /** The four mode names are different. */
  lemma ModeNameInjective(a: Mode, b: Mode)
    ensures ModeName(a) == ModeName(b) ==> a == b
  {
    assert ModeName(NLinker)[0] == 'N' && ModeName(CLinker)[0] == 'C';
  }

  /** The basic check: the script raises ValueError unless
      `1 <= region_start <= region_end <= len(base)`. */
  predicate WindowValid(st: Settings)
  {
    1 <= st.regionStart <= st.regionEnd <= |st.base|
  }

  // ------------------------------------------------------------- enumeration

  /** One iteration of the innermost loop: `deletion_start`, the index where
      the kept right part resumes (`deletion_end + 1`), and the linker mode.
      `resume == start` is the zero-length case, an insertion. */
  datatype Choice = Choice(start: nat, resume: nat, mode: Mode)

  predicate IsDeletion(c: Choice)
  {
    c.resume > c.start
  }

  /** The four modes at one (start, end) pair, in dictionary order. */
  function ModesFor(start: nat, resume: nat): seq<Choice>
  {
    seq(4, m requires 0 <= m < 4 => Choice(start, resume, ModeOrder[m]))
  }

  /** Length of `possible_ends` for one start: the zero-length end plus
      `range(start, r1 + 1)`. */
  function EndCount(start: nat, r1: nat): nat
  {
    1 + (if r1 - start + 1 > 0 then r1 - start + 1 else 0)
  }

  /** The first `n` entries of `possible_ends` for `start`, each with its four
      modes. The j-th entry is `deletion_end = start - 1 + j`. */
  function ChoicesAt(start: nat, n: nat): seq<Choice>
  {
    if n == 0 then [] else ChoicesAt(start, n - 1) + ModesFor(start, start + n - 1)
  }

  /** All choices for the starts `r0 .. hi - 1`. */
  function ChoicesUpTo(r0: nat, hi: nat, r1: nat): seq<Choice>
  {
    if hi <= r0 then [] else ChoicesUpTo(r0, hi - 1, r1) + ChoicesAt(hi - 1, EndCount(hi - 1, r1))
  }

  /** The loops' order: `deletion_start` over `r0 .. r1 + 1`. */
  function Choices(r0: nat, r1: nat): seq<Choice>
  {
    ChoicesUpTo(r0, r1 + 2, r1)
  }

  lemma {:induction false} ChoicesAtMembers(start: nat, n: nat)
    ensures forall c :: c in ChoicesAt(start, n) <==> c.start == start && start <= c.resume < start + n
  {
    if n > 0 {
      ChoicesAtMembers(start, n - 1);
      var r := start + n - 1;
      forall c: Choice | c.start == start && c.resume == r ensures c in ModesFor(start, r) {
        match c.mode
        case NoLinker => assert c == ModesFor(start, r)[0];
        case NLinker => assert c == ModesFor(start, r)[1];
        case CLinker => assert c == ModesFor(start, r)[2];
        case BothLinker => assert c == ModesFor(start, r)[3];
      }
    }
  }

  lemma {:induction false} ChoicesUpToMembers(r0: nat, hi: nat, r1: nat)
    ensures forall c :: c in ChoicesUpTo(r0, hi, r1) <==>
      r0 <= c.start < hi && c.start <= c.resume < c.start + EndCount(c.start, r1)
  {
    if hi > r0 {
      ChoicesUpToMembers(r0, hi - 1, r1);
      ChoicesAtMembers(hi - 1, EndCount(hi - 1, r1));
    }
  }

  /** A choice is enumerated exactly when its start lies in `r0 .. r1 + 1` and
      its deletion ends between `start - 1` and `r1`. */
  lemma ChoicesMembers(r0: nat, r1: nat)
    ensures forall c :: c in Choices(r0, r1) <==> r0 <= c.start <= r1 + 1 && c.start <= c.resume <= r1 + 1
  {
    ChoicesUpToMembers(r0, r1 + 2, r1);
  }

  predicate Distinct<T(==)>(s: seq<T>)
  {
    forall i, j :: 0 <= i < j < |s| ==> s[i] != s[j]
  }

  lemma DistinctAppend<T>(a: seq<T>, b: seq<T>)
    requires Distinct(a) && Distinct(b)
    requires forall x :: x in a ==> x !in b
    ensures Distinct(a + b)
  {
    forall i, j | 0 <= i < j < |a + b| ensures (a + b)[i] != (a + b)[j] {
      if j < |a| {
        assert (a + b)[i] == a[i] && (a + b)[j] == a[j];
      } else if i >= |a| {
        assert (a + b)[i] == b[i - |a|] && (a + b)[j] == b[j - |a|];
      } else {
        assert (a + b)[i] == a[i] && a[i] in a;
        assert (a + b)[j] == b[j - |a|] && b[j - |a|] in b;
      }
    }
  }

  lemma {:induction false} ChoicesAtDistinct(start: nat, n: nat)
    ensures Distinct(ChoicesAt(start, n))
  {
    if n > 0 {
      ChoicesAtDistinct(start, n - 1);
      ChoicesAtMembers(start, n - 1);
      DistinctAppend(ChoicesAt(start, n - 1), ModesFor(start, start + n - 1));
    }
  }

  lemma {:induction false} ChoicesUpToDistinct(r0: nat, hi: nat, r1: nat)
    ensures Distinct(ChoicesUpTo(r0, hi, r1))
  {
    if hi > r0 {
      ChoicesUpToDistinct(r0, hi - 1, r1);
      ChoicesUpToMembers(r0, hi - 1, r1);
      ChoicesAtMembers(hi - 1, EndCount(hi - 1, r1));
      ChoicesAtDistinct(hi - 1, EndCount(hi - 1, r1));
      DistinctAppend(ChoicesUpTo(r0, hi - 1, r1), ChoicesAt(hi - 1, EndCount(hi - 1, r1)));
    }
  }

  // ------------------------------------------------------------------ counting

  /** `num_positions` after the starts `r0 .. hi - 1` of the counting loop. */
  function PositionCount(r0: nat, hi: nat, r1: nat): nat
  {
    if hi <= r0 then 0 else PositionCount(r0, hi - 1, r1) + EndCount(hi - 1, r1)
  }

  lemma {:induction false} ChoicesCount(r0: nat, hi: nat, r1: nat)
    ensures |ChoicesUpTo(r0, hi, r1)| == 4 * PositionCount(r0, hi, r1)
  {
    if hi > r0 {
      ChoicesCount(r0, hi - 1, r1);
      ChoicesAtCount(hi - 1, EndCount(hi - 1, r1));
    }
  }

  lemma {:induction false} ChoicesAtCount(start: nat, n: nat)
    ensures |ChoicesAt(start, n)| == 4 * n
  {
    if n > 0 {
      ChoicesAtCount(start, n - 1);
    }
  }

  /** After the starts `r0 .. hi - 1`, the positions still to count are
      `t + (t - 1) + ... + 1` for `t = r1 - hi + 2`. */
  lemma {:induction false} PositionCountPartial(r0: nat, hi: nat, r1: nat)
    requires r0 <= hi <= r1 + 2
    ensures 2 * PositionCount(r0, hi, r1) + (r1 - hi + 2) * (r1 - hi + 3) == (r1 - r0 + 2) * (r1 - r0 + 3)
    decreases hi
  {
    if hi > r0 {
      PositionCountPartial(r0, hi - 1, r1);
      var t := r1 - hi + 2;
      assert EndCount(hi - 1, r1) == t + 1;
      assert (t + 1) * (t + 2) == t * (t + 1) + 2 * (t + 1);
    }
  }

  /** The number of positions, zero-length ones included, is `(w+1)(w+2)/2`
      for a window of `w` residues. */
  lemma PositionCountClosedForm(r0: nat, r1: nat)
    requires r0 <= r1 + 1
    ensures 2 * PositionCount(r0, r1 + 2, r1) == (r1 - r0 + 2) * (r1 - r0 + 3)
  {
    PositionCountPartial(r0, r1 + 2, r1);
  }

  /** The closing count loop: `num_positions`, for `ds` in `r0 .. r1 + 1`, of
      `1 + max(0, r1 - ds + 1)`. */
  method CountPositions(r0: nat, r1: nat) returns (numPositions: nat)
    requires r0 <= r1
    ensures numPositions == PositionCount(r0, r1 + 2, r1)
    ensures 2 * numPositions == (r1 - r0 + 2) * (r1 - r0 + 3)
  {
    numPositions := 0;
    for ds := r0 to r1 + 2
      invariant numPositions == PositionCount(r0, ds, r1)
    {
      numPositions := numPositions + 1 + (if r1 - ds + 1 > 0 then r1 - ds + 1 else 0);
    }
    PositionCountClosedForm(r0, r1);
  }

  // ------------------------------------------------------------------ variants

  /** A CSV cell that holds a number or is left empty (`""` in the script). */
  datatype Field = Num(n: nat) | Blank

  /** One entry of `variants`. */
  datatype Variant = Variant(name: string, delStart: Field, delEnd: Field, delLen: nat, insertPos: Field,
                             linkerMode: string, linkerSeq: string, sequence: string, seqLength: nat)

  /** `s[:k]` for `k >= 0` */
  function Take(s: string, k: nat): string
  {
    if k <= |s| then s[..k] else s
  }

  /** `s[k:]` for `k >= 0` */
  function Drop(s: string, k: nat): string
  {
    if k <= |s| then s[k..] else []
  }

  /** `deletion_desc`: 1-based first and last deleted residue and the length,
      or the 1-based insertion point. */
  function Description(c: Choice): string
  {
    if IsDeletion(c) then
      "del_" + NatToString(c.start + 1) + "_" + NatToString(c.resume) + "_len" + NatToString(c.resume - c.start)
    else "ins_at_" + NatToString(c.start + 1) + "_len0"
  }

  function VariantName(c: Choice): string
  {
    "RXFP3_" + Description(c) + "_" + ModeName(c.mode)
  }

  /** The `linker_seq` column: `f"N:{n_linker}|C:{c_linker}"`. */
  function LinkerLabel(nLinker: string, cLinker: string): string
  {
    "N:" + nLinker + "|C:" + cLinker
  }

  /** The body of the innermost loop: the record appended for one choice. */
  function MakeVariant(st: Settings, c: Choice): Variant
  {
    var deletion := IsDeletion(c);
    var insertSeq := NLinkerOf(st, c.mode) + st.insert + CLinkerOf(st, c.mode);
    var newSeq := Take(st.base, c.start) + insertSeq + Drop(st.base, c.resume);
    Variant(
      name := VariantName(c),
      delStart := if deletion then Num(c.start + 1) else Blank,
      delEnd := if deletion then Num(c.resume) else Blank,
      delLen := if deletion then c.resume - c.start else 0,
      insertPos := if deletion then Blank else Num(c.start + 1),
      linkerMode := ModeName(c.mode),
      linkerSeq := LinkerLabel(NLinkerOf(st, c.mode), CLinkerOf(st, c.mode)),
      sequence := newSeq,
      seqLength := |newSeq|)
  }

  /** The fields of one variant: the deletion columns are filled exactly for
      a deletion, the insertion column exactly for an insertion, and inside
      the base the sequence is the base with `[start, resume)` replaced by the
      linkers and the insert. */
  lemma VariantFields(st: Settings, c: Choice)
    ensures var v := MakeVariant(st, c);
      && v.name == VariantName(c) && v.linkerMode == ModeName(c.mode)
      && (v.delLen >= 1 <==> IsDeletion(c))
      && (IsDeletion(c) ==> v.delLen == c.resume - c.start
                            && v.delStart == Num(c.start + 1) && v.delEnd == Num(c.resume) && v.insertPos == Blank)
      && (!IsDeletion(c) ==> v.delStart == Blank && v.delEnd == Blank && v.insertPos == Num(c.start + 1))
      && v.seqLength == |v.sequence|
  {
  }

  lemma VariantSplice(st: Settings, c: Choice)
    requires c.start <= c.resume <= |st.base|
    ensures var v := MakeVariant(st, c);
      var linked := NLinkerOf(st, c.mode) + st.insert + CLinkerOf(st, c.mode);
      && |v.sequence| == |st.base| - v.delLen + |linked|
      && v.sequence[..c.start] == st.base[..c.start]
      && v.sequence[c.start..c.start + |linked|] == linked
      && v.sequence[c.start + |linked|..] == st.base[c.resume..]
  {
    var v := MakeVariant(st, c);
    var linked := NLinkerOf(st, c.mode) + st.insert + CLinkerOf(st, c.mode);
    assert v.sequence == st.base[..c.start] + linked + st.base[c.resume..];
  }

  /** `MakeVariant` for fixed settings, as a function of the choice. */
  function Maker(st: Settings): Choice -> Variant
  {
    c => MakeVariant(st, c)
  }

  /** The records `make` builds for a list of choices, in the same order. */
  function VariantsOf(make: Choice -> Variant, cs: seq<Choice>): seq<Variant>
  {
    seq(|cs|, i requires 0 <= i < |cs| => make(cs[i]))
  }

  /** One record per choice. */
  lemma VariantsOfLength(make: Choice -> Variant, cs: seq<Choice>)
    ensures |VariantsOf(make, cs)| == |cs|
  {
  }

  /** The i-th record is made from the i-th choice. */
  lemma VariantsOfAt(make: Choice -> Variant, cs: seq<Choice>)
    ensures |VariantsOf(make, cs)| == |cs|
    ensures forall i :: 0 <= i < |cs| ==> VariantsOf(make, cs)[i] == make(cs[i])
  {
  }

  lemma VariantsOfSnoc(make: Choice -> Variant, cs: seq<Choice>, c: Choice)
    ensures VariantsOf(make, cs + [c]) == VariantsOf(make, cs) + [make(c)]
  {
    assert forall i :: 0 <= i < |cs| ==> (cs + [c])[i] == cs[i];
  }

  lemma ModesForStep(before: seq<Choice>, start: nat, resume: nat, m: nat)
    requires m < 4
    ensures before + ModesFor(start, resume)[..m + 1]
            == (before + ModesFor(start, resume)[..m]) + [Choice(start, resume, ModeOrder[m])]
  {
    assert ModesFor(start, resume)[..m + 1] == ModesFor(start, resume)[..m] + [ModesFor(start, resume)[m]];
  }

  lemma ChoicesAtStep(done: seq<Choice>, start: nat, j: nat)
    ensures done + ChoicesAt(start, j + 1) == (done + ChoicesAt(start, j)) + ModesFor(start, start + j)
  {
  }

  /** What the script's loops produce once the window check has passed. */
  function Variants(st: Settings): seq<Variant>
    requires WindowValid(st)
  {
    VariantsOf(Maker(st), Choices(st.regionStart - 1, st.regionEnd - 1))
  }

  /** `possible_ends` for one `deletion_start`: `start - 1` (no deletion),
      then `range(start, r1 + 1)`. */
  method PossibleEnds(start: nat, r1: nat) returns (ends: seq<int>)
    ensures |ends| == EndCount(start, r1)
    ensures forall k :: 0 <= k < |ends| ==> ends[k] == start - 1 + k
  {
    ends := [start - 1];
    var de := start;
    while de < r1 + 1
      invariant start <= de && (de == start || de <= r1 + 1)
      invariant |ends| == 1 + de - start
      invariant forall k :: 0 <= k < |ends| ==> ends[k] == start - 1 + k
    {
      ends := ends + [de];
      de := de + 1;
    }
  }

  /** The loop over `linker_modes` for one deletion: the record `make` builds
      for each mode is appended, in the order of the dictionary. */
  method AppendModes(make: Choice -> Variant, variants: seq<Variant>, start: nat, resume: nat,
                     ghost before: seq<Choice>)
    returns (out: seq<Variant>)
    requires variants == VariantsOf(make, before)
    ensures out == VariantsOf(make, before + ModesFor(start, resume))
  {
    out := variants;
    ghost var chosen := before;
    assert before + ModesFor(start, resume)[..0] == before;
    for m := 0 to 4
      invariant chosen == before + ModesFor(start, resume)[..m]
      invariant out == VariantsOf(make, chosen)
    {
      var c := Choice(start, resume, ModeOrder[m]);
      ModesForStep(before, start, resume, m);
      VariantsOfSnoc(make, chosen, c);
      out := out + [make(c)];
      chosen := chosen + [c];
    }
    assert ModesFor(start, resume)[..4] == ModesFor(start, resume);
  }

  /** The loop over `possible_ends` for one `deletion_start`. */
  method AppendStart(make: Choice -> Variant, variants: seq<Variant>, start: nat, r1: nat,
                     ghost before: seq<Choice>)
    returns (out: seq<Variant>)
    requires variants == VariantsOf(make, before)
    ensures out == VariantsOf(make, before + ChoicesAt(start, EndCount(start, r1)))
  {
    var possibleEnds := PossibleEnds(start, r1);
    out := variants;
    ghost var chosen := before;
    assert before + ChoicesAt(start, 0) == before;
    for j := 0 to |possibleEnds|
      invariant chosen == before + ChoicesAt(start, j)
      invariant out == VariantsOf(make, chosen)
    {
      var deletionEnd := possibleEnds[j];
      out := AppendModes(make, out, start, deletionEnd + 1, chosen);
      ChoicesAtStep(before, start, j);
      chosen := chosen + ModesFor(start, start + j);
    }
  }

  lemma ChoicesUpToStep(r0: nat, start: nat, r1: nat)
    requires r0 <= start
    ensures ChoicesUpTo(r0, start + 1, r1) == ChoicesUpTo(r0, start, r1) + ChoicesAt(start, EndCount(start, r1))
  {
  }

  /** The loop over `deletion_start` in `range(r0, r1 + 2)`, with `make`
      building the record of each choice. */
  method Enumerate(make: Choice -> Variant, r0: nat, r1: nat) returns (variants: seq<Variant>)
    ensures variants == VariantsOf(make, ChoicesUpTo(r0, r1 + 2, r1))
  {
    variants := [];
    ghost var chosen: seq<Choice> := [];
    var ds := r0;
    while ds < r1 + 2
      invariant r0 <= ds && (ds == r0 || ds <= r1 + 2)
      invariant chosen == ChoicesUpTo(r0, ds, r1)
      invariant variants == VariantsOf(make, chosen)
    {
      variants := AppendStart(make, variants, ds, r1, chosen);
      ChoicesUpToStep(r0, ds, r1);
      chosen := chosen + ChoicesAt(ds, EndCount(ds, r1));
      ds := ds + 1;
    }
  }

  /** The script up to `total = len(variants)`: the window check, then the
      three nested loops over `deletion_start`, `possible_ends` and the modes. */
  method GenerateVariants(st: Settings) returns (r: Result<seq<Variant>>)
    ensures r.Raises? <==> !WindowValid(st)
    ensures r.Ok? ==> r.value == Variants(st)
  {
    if !(1 <= st.regionStart <= st.regionEnd <= |st.base|) {
      return Raises("ValueError");
    }
    var variants := Enumerate(Maker(st), st.regionStart - 1, st.regionEnd - 1);
    return Ok(variants);
  }

  lemma VariantsOfMembers(make: Choice -> Variant, cs: seq<Choice>)
    ensures forall v :: v in VariantsOf(make, cs) <==> exists c :: c in cs && v == make(c)
  {
    var vs := VariantsOf(make, cs);
    VariantsOfAt(make, cs);
    forall v | v in vs ensures exists c :: c in cs && v == make(c) {
      var i :| 0 <= i < |vs| && vs[i] == v;
      assert cs[i] in cs;
    }
    forall c | c in cs ensures make(c) in vs {
      var i :| 0 <= i < |cs| && cs[i] == c;
      assert vs[i] == make(c);
    }
  }

  lemma RecordsCoverWindow(make: Choice -> Variant, r0: nat, r1: nat)
    ensures forall v :: v in VariantsOf(make, Choices(r0, r1)) <==>
      exists c: Choice :: r0 <= c.start <= r1 + 1 && c.start <= c.resume <= r1 + 1 && v == make(c)
  {
    ChoicesMembers(r0, r1);
    VariantsOfMembers(make, Choices(r0, r1));
  }

  /** Every variant comes from one choice in the window. */
  lemma VariantsFromWindow(st: Settings)
    requires WindowValid(st)
    ensures forall v :: v in Variants(st) ==>
      exists c: Choice :: st.regionStart - 1 <= c.start <= st.regionEnd && c.start <= c.resume <= st.regionEnd
                  && v == MakeVariant(st, c)
  {
    RecordsCoverWindow(Maker(st), st.regionStart - 1, st.regionEnd - 1);
  }

  /** Every choice in the window gives a variant. */
  lemma WindowInVariants(st: Settings)
    requires WindowValid(st)
    ensures forall c: Choice :: st.regionStart - 1 <= c.start <= st.regionEnd && c.start <= c.resume <= st.regionEnd
                  ==> MakeVariant(st, c) in Variants(st)
  {
    RecordsCoverWindow(Maker(st), st.regionStart - 1, st.regionEnd - 1);
  }

  lemma DoubledCount(n: int, w: int)
    requires 2 * n == (w + 1) * (w + 2)
    ensures 4 * n == 2 * (w + 1) * (w + 2)
  {
  }

  lemma RecordCount(make: Choice -> Variant, r0: nat, r1: nat, w: int)
    requires r0 <= r1 + 1 && w == r1 - r0 + 1
    ensures |VariantsOf(make, Choices(r0, r1))| == 4 * PositionCount(r0, r1 + 2, r1)
    ensures |VariantsOf(make, Choices(r0, r1))| == 2 * (w + 1) * (w + 2)
  {
    VariantsOfLength(make, Choices(r0, r1));
    ChoicesCount(r0, r1 + 2, r1);
    PositionCountClosedForm(r0, r1);
    DoubledCount(PositionCount(r0, r1 + 2, r1), w);
  }

  /** `total` equals the script's predicted `num_positions * len(linker_modes)`. */
  lemma VariantCount(st: Settings)
    requires WindowValid(st)
    ensures |Variants(st)| == 4 * PositionCount(st.regionStart - 1, st.regionEnd + 1, st.regionEnd - 1)
  {
    var r0, r1, w := st.regionStart - 1, st.regionEnd - 1, st.regionEnd - st.regionStart + 1;
    RecordCount(Maker(st), r0, r1, w);
    assert r1 + 2 == st.regionEnd + 1;
  }

  /** For a window of `w` residues that is `2(w+1)(w+2)` records. */
  lemma VariantCountClosedForm(st: Settings)
    requires WindowValid(st)
    ensures var w := st.regionEnd - st.regionStart + 1;
      |Variants(st)| == 2 * (w + 1) * (w + 2)
  {
    var r0, r1, w := st.regionStart - 1, st.regionEnd - 1, st.regionEnd - st.regionStart + 1;
    RecordCount(Maker(st), r0, r1, w);
  }

  /** The shipped settings pass the check and give 1104 variants. */
  lemma DefaultVariantCount()
    ensures WindowValid(DefaultSettings)
    ensures |Variants(DefaultSettings)| == 1104
  {
    assert |Rxfp3| == 479;
    VariantCountClosedForm(DefaultSettings);
  }

  // ------------------------------------------------------------------- names

  /** Length of the run of digits a string starts with. */
  function LeadingDigits(s: string): nat
  {
    if s != [] && IsDigit(s[0]) then 1 + LeadingDigits(s[1..]) else 0
  }

  lemma {:induction false} LeadingDigitsOf(a: string, sep: char, x: string)
    requires AllDigits(a) && !IsDigit(sep)
    ensures LeadingDigits(a + [sep] + x) == |a|
  {
    if a != [] {
      assert (a + [sep] + x)[1..] == a[1..] + [sep] + x;
      LeadingDigitsOf(a[1..], sep, x);
    }
  }

  /** A number followed by a separator that is not a digit can be read back. */
  lemma DigitsThenSep(a: string, b: string, sep: char, x: string, y: string)
    requires AllDigits(a) && AllDigits(b) && !IsDigit(sep)
    requires a + [sep] + x == b + [sep] + y
    ensures a == b && x == y
  {
    LeadingDigitsOf(a, sep, x);
    LeadingDigitsOf(b, sep, y);
    var s := a + [sep] + x;
    assert a == s[..|a|] && b == s[..|b|];
    assert x == s[|a| + 1..] && y == s[|b| + 1..];
  }

  lemma DropCommonPrefix(p: string, x: string, y: string)
    requires p + x == p + y
    ensures x == y
  {
    assert x == (p + x)[|p|..] && y == (p + y)[|p|..];
  }

  /** The character after `RXFP3_` tells deletions (`d`) from insertions (`i`). */
  lemma NameMarksKind(c: Choice)
    ensures VariantName(c)[6] == if IsDeletion(c) then 'd' else 'i'
  {
    assert VariantName(c)[6] == Description(c)[0];
  }

  lemma DeletionNameShape(s: string, e: string, n: string, m: string)
    ensures "RXFP3_" + ("del_" + s + "_" + e + "_len" + n) + "_" + m
            == "RXFP3_del_" + (s + ['_'] + (e + ['_'] + ("len" + (n + ['_'] + m))))
  {
  }

  lemma InsertionNameShape(p: string, m: string)
    ensures "RXFP3_" + ("ins_at_" + p + "_len0") + "_" + m == "RXFP3_ins_at_" + (p + ['_'] + ("len0_" + m))
  {
  }

  /** A deletion name determines its three numbers and its mode name. */
  lemma DeletionNamesMatch(sa: string, ea: string, na: string, ma: string,
                           sb: string, eb: string, nb: string, mb: string)
    requires AllDigits(sa) && AllDigits(ea) && AllDigits(na)
    requires AllDigits(sb) && AllDigits(eb) && AllDigits(nb)
    requires "RXFP3_" + ("del_" + sa + "_" + ea + "_len" + na) + "_" + ma
             == "RXFP3_" + ("del_" + sb + "_" + eb + "_len" + nb) + "_" + mb
    ensures sa == sb && ea == eb && na == nb && ma == mb
  {
    DeletionNameShape(sa, ea, na, ma);
    DeletionNameShape(sb, eb, nb, mb);
    DropCommonPrefix("RXFP3_del_", sa + ['_'] + (ea + ['_'] + ("len" + (na + ['_'] + ma))),
                     sb + ['_'] + (eb + ['_'] + ("len" + (nb + ['_'] + mb))));
    DigitsThenSep(sa, sb, '_', ea + ['_'] + ("len" + (na + ['_'] + ma)), eb + ['_'] + ("len" + (nb + ['_'] + mb)));
    DigitsThenSep(ea, eb, '_', "len" + (na + ['_'] + ma), "len" + (nb + ['_'] + mb));
    DropCommonPrefix("len", na + ['_'] + ma, nb + ['_'] + mb);
    DigitsThenSep(na, nb, '_', ma, mb);
  }

  /** An insertion name determines its position and its mode name. */
  lemma InsertionNamesMatch(pa: string, ma: string, pb: string, mb: string)
    requires AllDigits(pa) && AllDigits(pb)
    requires "RXFP3_" + ("ins_at_" + pa + "_len0") + "_" + ma == "RXFP3_" + ("ins_at_" + pb + "_len0") + "_" + mb
    ensures pa == pb && ma == mb
  {
    InsertionNameShape(pa, ma);
    InsertionNameShape(pb, mb);
    DropCommonPrefix("RXFP3_ins_at_", pa + ['_'] + ("len0_" + ma), pb + ['_'] + ("len0_" + mb));
    DigitsThenSep(pa, pb, '_', "len0_" + ma, "len0_" + mb);
    DropCommonPrefix("len0_", ma, mb);
  }

  lemma DeletionNameSpelled(c: Choice)
    requires IsDeletion(c)
    ensures VariantName(c) == "RXFP3_" + ("del_" + NatToString(c.start + 1) + "_" + NatToString(c.resume)
                                         + "_len" + NatToString(c.resume - c.start)) + "_" + ModeName(c.mode)
  {
  }

  lemma InsertionNameSpelled(c: Choice)
    requires c.start == c.resume
    ensures VariantName(c) == "RXFP3_" + ("ins_at_" + NatToString(c.start + 1) + "_len0") + "_" + ModeName(c.mode)
  {
  }

  lemma DeletionNameInjective(a: Choice, b: Choice)
    requires IsDeletion(a) && IsDeletion(b) && VariantName(a) == VariantName(b)
    ensures a == b
  {
    DeletionNameSpelled(a);
    DeletionNameSpelled(b);
    DeletionNamesMatch(NatToString(a.start + 1), NatToString(a.resume), NatToString(a.resume - a.start),
                       ModeName(a.mode),
                       NatToString(b.start + 1), NatToString(b.resume), NatToString(b.resume - b.start),
                       ModeName(b.mode));
    NatToStringInjective(a.start + 1, b.start + 1);
    NatToStringInjective(a.resume, b.resume);
    ModeNameInjective(a.mode, b.mode);
  }

  lemma InsertionNameInjective(a: Choice, b: Choice)
    requires a.start == a.resume && b.start == b.resume && VariantName(a) == VariantName(b)
    ensures a == b
  {
    InsertionNameSpelled(a);
    InsertionNameSpelled(b);
    InsertionNamesMatch(NatToString(a.start + 1), ModeName(a.mode), NatToString(b.start + 1), ModeName(b.mode));
    NatToStringInjective(a.start + 1, b.start + 1);
    ModeNameInjective(a.mode, b.mode);
  }

  /** Distinct choices get distinct names: the name spells out the start, the
      end and the mode. */
  lemma VariantNameInjective(a: Choice, b: Choice)
    requires a.start <= a.resume && b.start <= b.resume
    ensures VariantName(a) == VariantName(b) ==> a == b
  {
    if VariantName(a) == VariantName(b) {
      NameMarksKind(a);
      NameMarksKind(b);
      if IsDeletion(a) {
        DeletionNameInjective(a, b);
      } else {
        InsertionNameInjective(a, b);
      }
    }
  }

  lemma ChoiceNamesDistinct(cs: seq<Choice>)
    requires Distinct(cs)
    requires forall c :: c in cs ==> c.start <= c.resume
    ensures forall i, j :: 0 <= i < j < |cs| ==> VariantName(cs[i]) != VariantName(cs[j])
  {
    forall i, j | 0 <= i < j < |cs| ensures VariantName(cs[i]) != VariantName(cs[j]) {
      assert cs[i] in cs && cs[j] in cs;
      VariantNameInjective(cs[i], cs[j]);
    }
  }

  lemma WindowNamesDistinct(r0: nat, r1: nat)
    ensures forall i, j :: 0 <= i < j < |Choices(r0, r1)| ==>
      VariantName(Choices(r0, r1)[i]) != VariantName(Choices(r0, r1)[j])
  {
    ChoicesUpToDistinct(r0, r1 + 2, r1);
    ChoicesMembers(r0, r1);
    ChoiceNamesDistinct(Choices(r0, r1));
  }

  /** Every record `Maker` builds is named after its choice. */
  lemma MakerNames(st: Settings)
    ensures forall c :: Maker(st)(c).name == VariantName(c)
  {
    forall c ensures Maker(st)(c).name == VariantName(c) {
      VariantFields(st, c);
    }
  }

  lemma RecordNamesDistinct(make: Choice -> Variant, r0: nat, r1: nat)
    requires forall c :: make(c).name == VariantName(c)
    ensures forall i, j :: 0 <= i < j < |VariantsOf(make, Choices(r0, r1))| ==>
      VariantsOf(make, Choices(r0, r1))[i].name != VariantsOf(make, Choices(r0, r1))[j].name
  {
    WindowNamesDistinct(r0, r1);
    VariantsOfAt(make, Choices(r0, r1));
  }

  /** No two variants share a name. */
  lemma VariantNamesDistinct(st: Settings)
    requires WindowValid(st)
    ensures forall i, j :: 0 <= i < j < |Variants(st)| ==> Variants(st)[i].name != Variants(st)[j].name
  {
    MakerNames(st);
    RecordNamesDistinct(Maker(st), st.regionStart - 1, st.regionEnd - 1);
  }

  // ------------------------------------------------------------------- FASTA

  /** `>{name} | del_len={del_len} | linker={linker_mode} | len={seq_length}` */
  function Header(v: Variant): string
  {
    ">" + v.name + " | del_len=" + NatToString(v.delLen) + " | linker=" + v.linkerMode
    + " | len=" + NatToString(v.seqLength)
  }

  /** A written line with its terminator. */
  function Line(text: string): string
  {
    text + "\n"
  }

  /** `seq[i:i+70]` for `i` in `range(0, len(seq), 70)`. */
  function Wrap(s: string): seq<string>
    decreases |s|
  {
    if s == [] then []
    else if |s| <= 70 then [s]
    else [s[..70]] + Wrap(s[70..])
  }

  /** The pieces put together give the sequence back; every piece but the
      last is full, none is empty, and no piece holds a character the
      sequence does not. */
  lemma {:induction false} WrapPieces(s: string)
    ensures Concat(Wrap(s)) == s
    ensures forall k :: 0 <= k < |Wrap(s)| ==> 0 < |Wrap(s)[k]| <= 70
    ensures forall k :: 0 <= k < |Wrap(s)| - 1 ==> |Wrap(s)[k]| == 70
    ensures forall k, ch :: 0 <= k < |Wrap(s)| && ch in Wrap(s)[k] ==> ch in s
    decreases |s|
  {
    if s == [] {
    } else if |s| <= 70 {
      assert [s][..0] == [];
    } else {
      var rest := Wrap(s[70..]);
      WrapPieces(s[70..]);
      ConcatPrepend(s[..70], rest);
      assert s == s[..70] + s[70..];
      assert Wrap(s) == [s[..70]] + rest;
    }
  }

  /** The lines one variant contributes. */
  function FastaBlock(v: Variant): seq<string>
  {
    [Line(Header(v))] + MapSeq(Line, Wrap(v.sequence))
  }

  /** The lines of `variants.fasta`. */
  function FastaLines(vs: seq<Variant>): seq<string>
  {
    if vs == [] then [] else FastaLines(vs[..|vs| - 1]) + FastaBlock(vs[|vs| - 1])
  }

  lemma FastaLinesStep(vs: seq<Variant>, k: nat)
    requires k < |vs|
    ensures FastaLines(vs[..k + 1]) == FastaLines(vs[..k]) + FastaBlock(vs[k])
  {
    assert vs[..k + 1][..k] == vs[..k];
  }

  /** The inner loop of the FASTA writer: `seq[i:i+70]` plus a line break
      for `i` in `range(0, len(seq), 70)`. */
  method WriteWrapped(s: string) returns (out: seq<string>)
    ensures out == MapSeq(Line, Wrap(s))
  {
    out := [];
    var i := 0;
    ghost var chunks: seq<string> := [];
    while i < |s|
      invariant 0 <= i <= |s|
      invariant chunks + Wrap(s[i..]) == Wrap(s)
      invariant out == MapSeq(Line, chunks)
      decreases |s| - i
    {
      var j := if i + 70 < |s| then i + 70 else |s|;
      if |s[i..]| > 70 {
        assert s[i..][..70] == s[i..j] && s[i..][70..] == s[j..];
        assert Wrap(s[i..]) == [s[i..j]] + Wrap(s[j..]);
      } else {
        assert s[j..] == [] && s[i..j] == s[i..];
        assert Wrap(s[i..]) == [s[i..j]] + Wrap(s[j..]);
      }
      MapSeqAppend(Line, chunks, [s[i..j]]);
      out := out + [Line(s[i..j])];
      chunks := chunks + [s[i..j]];
      i := j;
    }
    assert s[i..] == [];
    assert chunks == Wrap(s);
  }

  /** The loop writing `variants.fasta`: a header line per variant, then its
      sequence in lines of at most 70 characters. */
  method WriteFasta(variants: seq<Variant>) returns (lines: seq<string>)
    ensures lines == FastaLines(variants)
  {
    lines := [];
    for k := 0 to |variants|
      invariant lines == FastaLines(variants[..k])
    {
      FastaLinesStep(variants, k);
      var v := variants[k];
      var wrapped := WriteWrapped(v.sequence);
      lines := lines + ([Line(Header(v))] + wrapped);
    }
    assert variants[..|variants|] == variants;
  }

  // ------------------------------------------------------- reading it back

  /** Characters that survive a line of `read_fasta` unchanged and never
      start a header. */
  predicate SequenceText(s: string)
  {
    forall ch :: ch in s ==> !IsSpace(ch) && ch != '>'
  }

  predicate Readable(v: Variant)
  {
    v.name != [] && NoSpace(v.name) && SequenceText(v.sequence)
  }

  function RecordOf(v: Variant): SequenceRecord
  {
    SequenceRecord(v.name, v.sequence)
  }

  /** A line `>name rest` opens a record named `name`. */
  lemma HeaderTextRead(st: FastaState, h: string, name: string, rest: string)
    requires h == ">" + (name + rest) && !IsSpace(h[|h| - 1])
    requires name != [] && NoSpace(name) && (rest == [] || IsSpace(rest[0]))
    ensures FastaStep(st, Line(h)) == Ok(FastaState(CloseRecord(st), Some(name), []))
  {
    StripTerminatedLine(h);
    assert StartsWith(h, ">");
    assert h[1..] == name + rest;
    FirstTokenOfWord(name, rest);
  }

  lemma HeaderLineRead(st: FastaState, v: Variant)
    requires v.name != [] && NoSpace(v.name)
    ensures FastaStep(st, Line(Header(v))) == Ok(FastaState(CloseRecord(st), Some(v.name), []))
  {
    var h := Header(v);
    var rest := " | del_len=" + NatToString(v.delLen) + " | linker=" + v.linkerMode
                + " | len=" + NatToString(v.seqLength);
    var len := NatToString(v.seqLength);
    assert h == ">" + (v.name + rest);
    assert h[|h| - 1] == len[|len| - 1];
    HeaderTextRead(st, h, v.name, rest);
  }

  lemma ChunkLineRead(st: FastaState, c: string)
    requires c != [] && SequenceText(c)
    ensures FastaStep(st, Line(c)) == Ok(st.(currentSeq := st.currentSeq + [c]))
  {
    assert c[0] in c && c[|c| - 1] in c;
    StripTerminatedLine(c);
    assert !StartsWith(c, ">");
  }

  /** A sequence line taken from state `st` to `next`, then the rest. */
  lemma RunChunkThenRest(st: FastaState, next: FastaState, c: string, rest: seq<string>)
    requires FastaStep(st, Line(c)) == Ok(next)
    ensures FastaRun(st, MapSeq(Line, [c] + rest)) == FastaRun(next, MapSeq(Line, rest))
  {
    assert ([c] + rest)[1..] == rest;
  }

  /** Sequence lines, read from any state, are appended to the open record. */
  lemma {:induction false} ChunksRead(st: FastaState, chunks: seq<string>)
    requires ReadableChunks(chunks)
    ensures FastaRun(st, MapSeq(Line, chunks)) == Ok(st.(currentSeq := st.currentSeq + chunks))
    decreases |chunks|
  {
    if chunks == [] {
      assert st.currentSeq + chunks == st.currentSeq;
    } else {
      var c, rest := chunks[0], chunks[1..];
      var next := st.(currentSeq := st.currentSeq + [c]);
      assert chunks == [c] + rest;
      assert st.currentSeq + chunks == next.currentSeq + rest;
      ChunkLineRead(st, c);
      RunChunkThenRest(st, next, c, rest);
      ChunksRead(next, rest);
    }
  }

  /** Every line `Wrap` cuts from readable text is a non-empty sequence line. */
  predicate ReadableChunks(chunks: seq<string>)
  {
    forall k :: 0 <= k < |chunks| ==> chunks[k] != [] && SequenceText(chunks[k])
  }

  lemma WrapReadable(s: string)
    requires SequenceText(s)
    ensures ReadableChunks(Wrap(s))
  {
    WrapPieces(s);
  }

  lemma BlockRead(prefix: seq<string>, st: FastaState, v: Variant)
    requires Readable(v)
    requires FastaScan(prefix) == Ok(st)
    ensures FastaScan(prefix + FastaBlock(v)) == Ok(FastaState(CloseRecord(st), Some(v.name), Wrap(v.sequence)))
  {
    var chunks := Wrap(v.sequence);
    var block := FastaBlock(v);
    var st1 := FastaState(CloseRecord(st), Some(v.name), []);
    assert block[1..] == MapSeq(Line, chunks);
    assert st1.(currentSeq := st1.currentSeq + chunks) == FastaState(CloseRecord(st), Some(v.name), chunks);
    HeaderLineRead(st, v);
    WrapReadable(v.sequence);
    ChunksRead(st1, chunks);
    ScanAppend(prefix, block);
  }

  lemma {:induction false} FastaLinesRead(vs: seq<Variant>)
    requires vs != []
    requires forall v :: v in vs ==> Readable(v)
    ensures FastaScan(FastaLines(vs))
            == Ok(FastaState(MapSeq(RecordOf, vs[..|vs| - 1]), Some(vs[|vs| - 1].name), Wrap(vs[|vs| - 1].sequence)))
  {
    var n := |vs|;
    var init := vs[..n - 1];
    assert vs[n - 1] in vs;
    if n == 1 {
      assert FastaLines(vs) == [] + FastaBlock(vs[0]);
      BlockRead([], FastaStart, vs[0]);
    } else {
      var last := init[n - 2];
      assert init[..n - 2] + [last] == init;
      assert forall v :: v in init ==> v in vs;
      MapSeqAppend(RecordOf, init[..n - 2], [last]);
      WrapPieces(last.sequence);
      var st := FastaState(MapSeq(RecordOf, init[..n - 2]), Some(last.name), Wrap(last.sequence));
      assert CloseRecord(st) == MapSeq(RecordOf, init);
      FastaLinesRead(init);
      BlockRead(FastaLines(init), st, vs[n - 1]);
    }
  }

  /** Reading `variants.fasta` back with the input builder's FASTA reader
      gives each variant's name and sequence, in order. */
  lemma FastaRoundTrip(vs: seq<Variant>)
    requires forall v :: v in vs ==> Readable(v)
    ensures ReadFastaResult(Some(FastaLines(vs))) == Ok(MapSeq(RecordOf, vs))
  {
    if vs != [] {
      var n := |vs|;
      var last := vs[n - 1];
      assert vs[..n - 1] + [last] == vs;
      MapSeqAppend(RecordOf, vs[..n - 1], [last]);
      WrapPieces(last.sequence);
      var st := FastaState(MapSeq(RecordOf, vs[..n - 1]), Some(last.name), Wrap(last.sequence));
      assert CloseRecord(st) == MapSeq(RecordOf, vs);
      FastaLinesRead(vs);
    }
  }

  lemma NoSpaceAppend(a: string, b: string)
    requires NoSpace(a) && NoSpace(b)
    ensures NoSpace(a + b)
  {
    forall i | 0 <= i < |a + b| ensures !IsSpace((a + b)[i]) {
      if i < |a| {
        assert (a + b)[i] == a[i];
      } else {
        assert (a + b)[i] == b[i - |a|];
      }
    }
  }

  lemma DigitsNoSpace(s: string)
    requires AllDigits(s)
    ensures NoSpace(s)
  {
    assert forall i :: 0 <= i < |s| ==> IsDigit(s[i]);
  }

  lemma DescriptionNoSpace(c: Choice)
    ensures NoSpace(Description(c))
  {
    var s1 := NatToString(c.start + 1);
    DigitsNoSpace(s1);
    if IsDeletion(c) {
      var s2, s3 := NatToString(c.resume), NatToString(c.resume - c.start);
      DigitsNoSpace(s2);
      DigitsNoSpace(s3);
      NoSpaceAppend("del_", s1);
      NoSpaceAppend("del_" + s1, "_");
      NoSpaceAppend("del_" + s1 + "_", s2);
      NoSpaceAppend("del_" + s1 + "_" + s2, "_len");
      NoSpaceAppend("del_" + s1 + "_" + s2 + "_len", s3);
    } else {
      NoSpaceAppend("ins_at_", s1);
      NoSpaceAppend("ins_at_" + s1, "_len0");
    }
  }

  lemma ModeNameNoSpace(m: Mode)
    ensures NoSpace(ModeName(m))
  {
  }

  lemma VariantNameNoSpace(c: Choice)
    ensures VariantName(c) != [] && NoSpace(VariantName(c))
  {
    var d, m := Description(c), ModeName(c.mode);
    DescriptionNoSpace(c);
    ModeNameNoSpace(c.mode);
    NoSpaceAppend("RXFP3_", d);
    NoSpaceAppend("RXFP3_" + d, "_");
    NoSpaceAppend("RXFP3_" + d + "_", m);
  }

  lemma MadeVariantReadable(st: Settings, c: Choice)
    requires SequenceText(st.base) && SequenceText(st.insert)
    requires SequenceText(st.linkerN) && SequenceText(st.linkerC)
    ensures Readable(MakeVariant(st, c))
  {
    VariantNameNoSpace(c);
    var t := Take(st.base, c.start);
    var d := Drop(st.base, c.resume);
    assert forall ch :: ch in t ==> ch in st.base;
    assert forall ch :: ch in d ==> ch in st.base;
    assert MakeVariant(st, c).sequence == t + (NLinkerOf(st, c.mode) + st.insert + CLinkerOf(st, c.mode)) + d;
  }

  /** With a base, insert and linkers free of whitespace and `>`, every
      generated variant is written to `variants.fasta` so that `read_fasta`
      recovers its name and its sequence. */
  lemma GeneratedFastaReadsBack(st: Settings)
    requires WindowValid(st)
    requires SequenceText(st.base) && SequenceText(st.insert)
    requires SequenceText(st.linkerN) && SequenceText(st.linkerC)
    ensures ReadFastaResult(Some(FastaLines(Variants(st)))) == Ok(MapSeq(RecordOf, Variants(st)))
  {
    var vs := Variants(st);
    var cs := Choices(st.regionStart - 1, st.regionEnd - 1);
    VariantsOfMembers(Maker(st), cs);
    forall v | v in vs ensures Readable(v) {
      var c :| c in cs && v == Maker(st)(c);
      MadeVariantReadable(st, c);
    }
    FastaRoundTrip(vs);
  }
}
