/**
 * The comparator (`validate_row`): compares a ground-truth row against an
 * extraction field by field and reports every disagreement as a
 * "field: ground-truth vs extracted" entry, in field order.
 *
 * `Mismatches` is the reference definition: the per-field rules, gathered in
 * field order. `ValidateRow` is the routine itself, building its list entry
 * by entry, and is proved to agree with it. Python's `str()` of a float (the
 * IEEE shortest round-trip text) is not modelled: it is the parameter `show`.
 */
module Validator {
  import opened Wrappers
  import opened Schema

  /** The default size tolerance, in millimetres. */
  const SIZE_TOL_MM: real := 1.0

  // ---------------------------------------------------------------------
  // Ground truth, as the orchestrator hands it over
  // ---------------------------------------------------------------------

  /** A ground-truth microcalcifications cell: None, a bool, an int, or text. */
  datatype CalcTruth = CalcNone | CalcBool(b: bool) | CalcInt(n: int) | CalcText(s: string)

  /**
   * A ground-truth size cell: None, a float, an int, or text. For text, `parsed`
   * is what `float(raw)` gives, or None when that call raises.
   */
  datatype SizeTruth = SizeNone | SizeFloat(x: real) | SizeInt(n: int) | SizeText(raw: string, parsed: Option<real>)

  /** The `structured_*` fields of a row and its report text (None: key missing). */
  datatype GroundTruth = GroundTruth(
    laterality: Option<string>,
    quadrant: Option<string>,
    finding: Option<string>,
    microcalcifications: CalcTruth,
    sizeMm: SizeTruth,
    reportText: Option<string>)

  /** The record `validate_row` returns. */
  datatype Row = Row(
    extractedLaterality: Option<string>,
    extractedQuadrant: Option<string>,
    extractedFinding: Option<string>,
    extractedMicrocalcifications: Option<bool>,
    extractedSizeMm: Option<real>,
    mismatchCount: nat,
    mismatches: string,
    reportText: string)

  // ---------------------------------------------------------------------
  // Fields and entries
  // ---------------------------------------------------------------------

  datatype Field = Laterality | Quadrant | Finding | Microcalcifications | SizeMm

  function Name(f: Field): string {
    match f
    case Laterality => "laterality"
    case Quadrant => "quadrant"
    case Finding => "finding"
    case Microcalcifications => "microcalcifications"
    case SizeMm => "size_mm"
  }

  /** The position of a field in the reporting order. */
  function Rank(f: Field): nat {
    match f
    case Laterality => 0
    case Quadrant => 1
    case Finding => 2
    case Microcalcifications => 3
    case SizeMm => 4
  }

  /** One disagreement: the field, and the text of both sides. */
  datatype Mismatch = Mismatch(field: Field, truth: string, extracted: string)

  /** One reported disagreement: the field name, a colon, the ground truth, "vs", the extracted value. */
  function Entry(name: string, s: string, e: string): string {
    name + ": " + s + " vs " + e
  }

  function Render(m: Mismatch): string {
    Entry(Name(m.field), m.truth, m.extracted)
  }

  function RenderAll(ms: seq<Mismatch>): (r: seq<string>)
    ensures |r| == |ms|
    ensures forall i | 0 <= i < |ms| :: r[i] == Render(ms[i])
  {
    if ms == [] then [] else [Render(ms[0])] + RenderAll(ms[1..])
  }

  /** `sep.join(parts)`. */
  function Join(parts: seq<string>, sep: string): string {
    if |parts| == 0 then ""
    else if |parts| == 1 then parts[0]
    else parts[0] + sep + Join(parts[1..], sep)
  }

  // ---------------------------------------------------------------------
  // Python's str(), ==, and float() on the values involved
  // ---------------------------------------------------------------------

  function DigitChar(d: nat): char
    requires d < 10
  {
    ('0' as int + d) as char
  }

  /** `str(n)` for a natural number. */
  function NatToString(n: nat): string
    decreases n
  {
    if n < 10 then [DigitChar(n)] else NatToString(n / 10) + [DigitChar(n % 10)]
  }

  /** `str(n)` for an integer. */
  function IntToString(n: int): string {
    if n < 0 then "-" + NatToString(-n) else NatToString(n)
  }

  function ShowBool(b: bool): string {
    if b then "True" else "False"
  }

  /** `str(v)` for a categorical value or None. */
  function ShowOptional(v: Option<string>): string {
    match v
    case None => "None"
    case Some(s) => s
  }

  function ShowCalc(v: CalcTruth): string {
    match v
    case CalcNone => "None"
    case CalcBool(b) => ShowBool(b)
    case CalcInt(n) => IntToString(n)
    case CalcText(s) => s
  }

  function ShowSize(v: SizeTruth, show: real -> string): string {
    match v
    case SizeNone => "None"
    case SizeFloat(x) => show(x)
    case SizeInt(n) => IntToString(n)
    case SizeText(raw, _) => raw
  }

  /** `s_calc != e` for a bool `e`: bools compare as the integers 0 and 1; None and text never equal a bool. */
  predicate CalcDiffers(s: CalcTruth, e: bool) {
    match s
    case CalcNone => true
    case CalcBool(b) => b != e
    case CalcInt(n) => n != (if e then 1 else 0)
    case CalcText(_) => true
  }

  /** `float(s_size)`, or None when that call raises. */
  function SizeAsFloat(v: SizeTruth): Option<real> {
    match v
    case SizeNone => None
    case SizeFloat(x) => Some(x)
    case SizeInt(n) => Some(n as real)
    case SizeText(_, parsed) => parsed
  }

  function Abs(x: real): real {
    if x < 0.0 then -x else x
  }

  // ---------------------------------------------------------------------
  // The per-field rules
  // ---------------------------------------------------------------------

  /** A categorical field disagrees when the extraction has a value and it differs from the ground truth. */
  function CheckCategorical(f: Field, s: Option<string>, e: Option<string>): (r: Option<Mismatch>)
    ensures r.Some? ==> r.value.field == f && e.Some? && r.value.extracted == e.value
  {
    if e.Some? && s != e then Some(Mismatch(f, ShowOptional(s), e.value)) else None
  }

  function CheckCalc(s: CalcTruth, e: Option<bool>): (r: Option<Mismatch>)
    ensures r.Some? ==> r.value.field == Microcalcifications && e.Some? && r.value.extracted == ShowBool(e.value)
  {
    if e.Some? && CalcDiffers(s, e.value) then Some(Mismatch(Microcalcifications, ShowCalc(s), ShowBool(e.value)))
    else None
  }

  /**
   * Size disagrees when the extraction has a size and the ground truth has
   * none, cannot be read as a number, or differs from it by more than `tol`.
   */
  function CheckSize(s: SizeTruth, e: Option<real>, tol: real, show: real -> string): (r: Option<Mismatch>)
    ensures r.Some? ==> r.value.field == SizeMm && e.Some? && r.value.extracted == show(e.value)
  {
    if e.None? then None
    else if s.SizeNone? then Some(Mismatch(SizeMm, "None", show(e.value)))
    else match SizeAsFloat(s)
      case None => Some(Mismatch(SizeMm, ShowSize(s, show), show(e.value)))
      case Some(x) =>
        if Abs(x - e.value) > tol then Some(Mismatch(SizeMm, ShowSize(s, show), show(e.value))) else None
  }

  /** The rule for one field. */
  function Check(f: Field, g: GroundTruth, e: Extraction, tol: real, show: real -> string): Option<Mismatch> {
    match f
    case Laterality => CheckCategorical(Laterality, g.laterality, e.laterality)
    case Quadrant => CheckCategorical(Quadrant, g.quadrant, e.quadrant)
    case Finding => CheckCategorical(Finding, g.finding, e.finding)
    case Microcalcifications => CheckCalc(g.microcalcifications, e.microcalcifications)
    case SizeMm => CheckSize(g.sizeMm, e.sizeMm, tol, show)
  }

  function AsSeq(m: Option<Mismatch>): seq<Mismatch> {
    if m.Some? then [m.value] else []
  }

  /** Every disagreement between `g` and `e`, in field order. */
  function Mismatches(g: GroundTruth, e: Extraction, tol: real, show: real -> string): (ms: seq<Mismatch>)
    ensures |ms| <= 5
  {
    AsSeq(Check(Laterality, g, e, tol, show)) +
    AsSeq(Check(Quadrant, g, e, tol, show)) +
    AsSeq(Check(Finding, g, e, tol, show)) +
    AsSeq(Check(Microcalcifications, g, e, tol, show)) +
    AsSeq(Check(SizeMm, g, e, tol, show))
  }

  /** The entry a rule's outcome contributes: one line, or none. */
  function Rendered(m: Option<Mismatch>): seq<string> {
    if m.Some? then [Render(m.value)] else []
  }

  /** Rendering distributes over concatenation. */
  lemma {:induction false} RenderAllConcat(a: seq<Mismatch>, b: seq<Mismatch>)
    ensures RenderAll(a + b) == RenderAll(a) + RenderAll(b)
    decreases |a|
  {
    if a != [] {
      assert (a + b)[1..] == a[1..] + b;
      RenderAllConcat(a[1..], b);
    }
  }

  lemma RenderOne(m: Option<Mismatch>)
    ensures RenderAll(AsSeq(m)) == Rendered(m)
  {
  }

  /** Rendering five rule outcomes in sequence is rendering each in turn. */
  lemma RenderFive(m1: Option<Mismatch>, m2: Option<Mismatch>, m3: Option<Mismatch>, m4: Option<Mismatch>, m5: Option<Mismatch>)
    ensures RenderAll(AsSeq(m1) + AsSeq(m2) + AsSeq(m3) + AsSeq(m4) + AsSeq(m5)) ==
              Rendered(m1) + Rendered(m2) + Rendered(m3) + Rendered(m4) + Rendered(m5)
  {
    var a1, a2, a3, a4, a5 := AsSeq(m1), AsSeq(m2), AsSeq(m3), AsSeq(m4), AsSeq(m5);
    RenderAllConcat(a1 + a2 + a3 + a4, a5);
    RenderAllConcat(a1 + a2 + a3, a4);
    RenderAllConcat(a1 + a2, a3);
    RenderAllConcat(a1, a2);
    RenderOne(m1); RenderOne(m2); RenderOne(m3); RenderOne(m4); RenderOne(m5);
  }

  /** Rendering all disagreements is rendering each field's rule, in field order. */
  lemma RenderMismatches(g: GroundTruth, e: Extraction, tol: real, show: real -> string)
    ensures RenderAll(Mismatches(g, e, tol, show)) ==
              Rendered(CheckCategorical(Laterality, g.laterality, e.laterality)) +
              Rendered(CheckCategorical(Quadrant, g.quadrant, e.quadrant)) +
              Rendered(CheckCategorical(Finding, g.finding, e.finding)) +
              Rendered(CheckCalc(g.microcalcifications, e.microcalcifications)) +
              Rendered(CheckSize(g.sizeMm, e.sizeMm, tol, show))
  {
    assert Check(Laterality, g, e, tol, show) == CheckCategorical(Laterality, g.laterality, e.laterality);
    assert Check(Quadrant, g, e, tol, show) == CheckCategorical(Quadrant, g.quadrant, e.quadrant);
    assert Check(Finding, g, e, tol, show) == CheckCategorical(Finding, g.finding, e.finding);
    assert Check(Microcalcifications, g, e, tol, show) == CheckCalc(g.microcalcifications, e.microcalcifications);
    assert Check(SizeMm, g, e, tol, show) == CheckSize(g.sizeMm, e.sizeMm, tol, show);
    RenderFive(Check(Laterality, g, e, tol, show), Check(Quadrant, g, e, tol, show), Check(Finding, g, e, tol, show),
               Check(Microcalcifications, g, e, tol, show), Check(SizeMm, g, e, tol, show));
  }

  /** Five successive appends to an empty list give the five pieces in order. */
  lemma AppendedInOrder(l0: seq<string>, l1: seq<string>, l2: seq<string>, l3: seq<string>, l4: seq<string>, l5: seq<string>,
                        r1: seq<string>, r2: seq<string>, r3: seq<string>, r4: seq<string>, r5: seq<string>)
    requires l0 == [] && l1 == l0 + r1 && l2 == l1 + r2 && l3 == l2 + r3 && l4 == l3 + r4 && l5 == l4 + r5
    ensures l5 == r1 + r2 + r3 + r4 + r5
  {
    assert l1 == r1;
  }

  /** One categorical `if ...: add(...)` step appends what the field's rule renders. */
  lemma CategoricalStep(f: Field, s: Option<string>, e: Option<string>, before: seq<string>, after: seq<string>)
    requires after == if e.Some? && s != e then before + [Entry(Name(f), ShowOptional(s), e.value)] else before
    ensures after == before + Rendered(CheckCategorical(f, s, e))
  {
  }

  lemma CalcStep(s: CalcTruth, e: Option<bool>, before: seq<string>, after: seq<string>)
    requires after == if e.Some? && CalcDiffers(s, e.value) then before + [Entry("microcalcifications", ShowCalc(s), ShowBool(e.value))] else before
    ensures after == before + Rendered(CheckCalc(s, e))
  {
  }

  lemma SizeStep(s: SizeTruth, e: Option<real>, tol: real, show: real -> string, before: seq<string>, after: seq<string>)
    requires after == if e.None? then before
                      else if s.SizeNone? then before + [Entry("size_mm", "None", show(e.value))]
                      else if SizeAsFloat(s).None? then before + [Entry("size_mm", ShowSize(s, show), show(e.value))]
                      else if Abs(SizeAsFloat(s).value - e.value) > tol then before + [Entry("size_mm", ShowSize(s, show), show(e.value))]
                      else before
    ensures after == before + Rendered(CheckSize(s, e, tol, show))
  {
  }

  // ---------------------------------------------------------------------
  // The comparator
  // ---------------------------------------------------------------------

  /**
   * The body of `validate_row` up to its `return`: the `add` calls the five
   * comparisons make, which together are the rendered disagreements.
   */
  method CollectMismatches(g: GroundTruth, e: Extraction, sizeTolMm: real, show: real -> string) returns (mismatches: seq<string>)
    ensures mismatches == RenderAll(Mismatches(g, e, sizeTolMm, show))
  {
    mismatches := [];

    var eLat, eQuad, eFind, eCalc, eSize := e.laterality, e.quadrant, e.finding, e.microcalcifications, e.sizeMm;
    var sLat, sQuad, sFind, sCalc, sSize := g.laterality, g.quadrant, g.finding, g.microcalcifications, g.sizeMm;

    // the list after each step, for the proof
    ghost var l0 := mismatches;
    if eLat.Some? && sLat != eLat {
      mismatches := mismatches + [Entry("laterality", ShowOptional(sLat), eLat.value)];
    }
    ghost var l1 := mismatches;
    CategoricalStep(Laterality, sLat, eLat, l0, l1);
    if eQuad.Some? && sQuad != eQuad {
      mismatches := mismatches + [Entry("quadrant", ShowOptional(sQuad), eQuad.value)];
    }
    ghost var l2 := mismatches;
    CategoricalStep(Quadrant, sQuad, eQuad, l1, l2);
    if eFind.Some? && sFind != eFind {
      mismatches := mismatches + [Entry("finding", ShowOptional(sFind), eFind.value)];
    }
    ghost var l3 := mismatches;
    CategoricalStep(Finding, sFind, eFind, l2, l3);
    if eCalc.Some? && CalcDiffers(sCalc, eCalc.value) {
      mismatches := mismatches + [Entry("microcalcifications", ShowCalc(sCalc), ShowBool(eCalc.value))];
    }
    ghost var l4 := mismatches;
    CalcStep(sCalc, eCalc, l3, l4);

    if eSize.Some? {
      if sSize.SizeNone? {
        mismatches := mismatches + [Entry("size_mm", "None", show(eSize.value))];
      } else {
        var s := SizeAsFloat(sSize);
        if s.None? {
          // the ground-truth size cannot be read as a number
          mismatches := mismatches + [Entry("size_mm", ShowSize(sSize, show), show(eSize.value))];
        } else if Abs(s.value - eSize.value) > sizeTolMm {
          mismatches := mismatches + [Entry("size_mm", ShowSize(sSize, show), show(eSize.value))];
        }
      }
    }

    SizeStep(sSize, eSize, sizeTolMm, show, l4, mismatches);
    AppendedInOrder(l0, l1, l2, l3, l4, mismatches,
                    Rendered(CheckCategorical(Laterality, sLat, eLat)), Rendered(CheckCategorical(Quadrant, sQuad, eQuad)),
                    Rendered(CheckCategorical(Finding, sFind, eFind)), Rendered(CheckCalc(sCalc, eCalc)),
                    Rendered(CheckSize(sSize, eSize, sizeTolMm, show)));
    RenderMismatches(g, e, sizeTolMm, show);
  }

  /**
   * `validate_row(structured, extracted, size_tol_mm)`: passes the extracted
   * fields and the report text through, counts the disagreements, and joins
   * their entries with "; ".
   */
  method ValidateRow(g: GroundTruth, e: Extraction, show: real -> string, sizeTolMm: real := SIZE_TOL_MM) returns (row: Row)
    ensures row.extractedLaterality == e.laterality && row.extractedQuadrant == e.quadrant
    ensures row.extractedFinding == e.finding && row.extractedMicrocalcifications == e.microcalcifications
    ensures row.extractedSizeMm == e.sizeMm
    ensures row.reportText == g.reportText.GetOr("")
    ensures row.mismatchCount == |Mismatches(g, e, sizeTolMm, show)|
    ensures row.mismatches == Join(RenderAll(Mismatches(g, e, sizeTolMm, show)), "; ")
  {
    var mismatches := CollectMismatches(g, e, sizeTolMm, show);
    row := Row(e.laterality, e.quadrant, e.finding, e.microcalcifications, e.sizeMm,
               |mismatches|, Join(mismatches, "; "), g.reportText.GetOr(""));
  }

  /**
   * `validate_row` called without a tolerance on a failed extraction, which
   * reads as absent in every field.
   */
  method ValidateFailedExtraction(g: GroundTruth, show: real -> string) returns (row: Row)
    ensures row.mismatchCount == 0 && row.mismatches == ""
    ensures row.extractedLaterality.None? && row.extractedQuadrant.None? && row.extractedFinding.None?
    ensures row.extractedMicrocalcifications.None? && row.extractedSizeMm.None?
    ensures row.reportText == g.reportText.GetOr("")
  {
    row := ValidateRow(g, NO_EXTRACTION, show);
    NoExtractionNoMismatches(g, SIZE_TOL_MM, show);
  }

  // ---------------------------------------------------------------------
  // What the comparison promises
  // ---------------------------------------------------------------------

  /** Each rule only ever reports its own field. */
  lemma CheckReportsItsField(f: Field, g: GroundTruth, e: Extraction, tol: real, show: real -> string)
    ensures Check(f, g, e, tol, show).Some? ==> Check(f, g, e, tol, show).value.field == f
  {
  }

  /** Mismatches whose fields all rank in `lo..hi`, strictly increasing. */
  predicate RankedWithin(ms: seq<Mismatch>, lo: nat, hi: nat) {
    (forall i | 0 <= i < |ms| :: lo <= Rank(ms[i].field) < hi) &&
    (forall i, j | 0 <= i < j < |ms| :: Rank(ms[i].field) < Rank(ms[j].field))
  }

  lemma {:induction false} RankedConcat(a: seq<Mismatch>, b: seq<Mismatch>, lo: nat, mid: nat, hi: nat)
    requires lo <= mid <= hi && RankedWithin(a, lo, mid) && RankedWithin(b, mid, hi)
    ensures RankedWithin(a + b, lo, hi)
  {
    var ab := a + b;
    assert forall i | 0 <= i < |a| :: ab[i] == a[i];
    assert forall i | |a| <= i < |ab| :: ab[i] == b[i - |a|];
  }

  lemma RankedField(f: Field, g: GroundTruth, e: Extraction, tol: real, show: real -> string)
    ensures RankedWithin(AsSeq(Check(f, g, e, tol, show)), Rank(f), Rank(f) + 1)
  {
    CheckReportsItsField(f, g, e, tol, show);
  }

  /**
   * The entries come in the fixed field order laterality, quadrant, finding,
   * microcalcifications, size, each field at most once; so there are at most five.
   */
  lemma MismatchesInFieldOrder(g: GroundTruth, e: Extraction, tol: real, show: real -> string)
    ensures var ms := Mismatches(g, e, tol, show);
      |ms| <= 5 &&
      forall i, j | 0 <= i < j < |ms| :: Rank(ms[i].field) < Rank(ms[j].field)
  {
    var m1, m2, m3 := AsSeq(Check(Laterality, g, e, tol, show)), AsSeq(Check(Quadrant, g, e, tol, show)), AsSeq(Check(Finding, g, e, tol, show));
    var m4, m5 := AsSeq(Check(Microcalcifications, g, e, tol, show)), AsSeq(Check(SizeMm, g, e, tol, show));
    RankedField(Laterality, g, e, tol, show);
    RankedField(Quadrant, g, e, tol, show);
    RankedField(Finding, g, e, tol, show);
    RankedField(Microcalcifications, g, e, tol, show);
    RankedField(SizeMm, g, e, tol, show);
    RankedConcat(m1, m2, 0, 1, 2);
    RankedConcat(m1 + m2, m3, 0, 2, 3);
    RankedConcat(m1 + m2 + m3, m4, 0, 3, 4);
    RankedConcat(m1 + m2 + m3 + m4, m5, 0, 4, 5);
  }

  /** A field appears in the list exactly when its rule reports it, and then as that report. */
  lemma ReportedExactlyByItsRule(f: Field, g: GroundTruth, e: Extraction, tol: real, show: real -> string)
    ensures var ms := Mismatches(g, e, tol, show);
      (exists i | 0 <= i < |ms| :: ms[i].field == f) <==> Check(f, g, e, tol, show).Some?
    ensures var ms := Mismatches(g, e, tol, show);
      forall i | 0 <= i < |ms| && ms[i].field == f :: ms[i] == Check(f, g, e, tol, show).value
  {
    var ms := Mismatches(g, e, tol, show);
    if Check(f, g, e, tol, show).Some? {
      ReportIsListed(f, g, e, tol, show);
    }
    forall i | 0 <= i < |ms|
      ensures Check(ms[i].field, g, e, tol, show) == Some(ms[i])
    {
      MismatchAt(g, e, tol, show, i);
    }
  }

  lemma ReportIsListed(f: Field, g: GroundTruth, e: Extraction, tol: real, show: real -> string)
    requires Check(f, g, e, tol, show).Some?
    ensures var ms := Mismatches(g, e, tol, show);
      exists i | 0 <= i < |ms| :: ms[i].field == f
  {
    var m1, m2, m3 := AsSeq(Check(Laterality, g, e, tol, show)), AsSeq(Check(Quadrant, g, e, tol, show)), AsSeq(Check(Finding, g, e, tol, show));
    var m4, m5 := AsSeq(Check(Microcalcifications, g, e, tol, show)), AsSeq(Check(SizeMm, g, e, tol, show));
    var ms := Mismatches(g, e, tol, show);
    assert ms == m1 + m2 + m3 + m4 + m5;
    CheckReportsItsField(f, g, e, tol, show);
    var position := match f
      case Laterality => 0
      case Quadrant => |m1|
      case Finding => |m1| + |m2|
      case Microcalcifications => |m1| + |m2| + |m3|
      case SizeMm => |m1| + |m2| + |m3| + |m4|;
    assert ms[position] == Check(f, g, e, tol, show).value;
  }

  /** Every entry in the list is its field's report. */
  lemma MismatchAt(g: GroundTruth, e: Extraction, tol: real, show: real -> string, i: int)
    requires 0 <= i < |Mismatches(g, e, tol, show)|
    ensures Check(Mismatches(g, e, tol, show)[i].field, g, e, tol, show) == Some(Mismatches(g, e, tol, show)[i])
  {
    var m1, m2, m3 := AsSeq(Check(Laterality, g, e, tol, show)), AsSeq(Check(Quadrant, g, e, tol, show)), AsSeq(Check(Finding, g, e, tol, show));
    var m4, m5 := AsSeq(Check(Microcalcifications, g, e, tol, show)), AsSeq(Check(SizeMm, g, e, tol, show));
    var ms := Mismatches(g, e, tol, show);
    assert ms == m1 + m2 + m3 + m4 + m5;
    CheckReportsItsField(Laterality, g, e, tol, show);
    CheckReportsItsField(Quadrant, g, e, tol, show);
    CheckReportsItsField(Finding, g, e, tol, show);
    CheckReportsItsField(Microcalcifications, g, e, tol, show);
    CheckReportsItsField(SizeMm, g, e, tol, show);
  }

  /** The extraction has a value for field `f`. */
  predicate Extracted(f: Field, e: Extraction) {
    match f
    case Laterality => e.laterality.Some?
    case Quadrant => e.quadrant.Some?
    case Finding => e.finding.Some?
    case Microcalcifications => e.microcalcifications.Some?
    case SizeMm => e.sizeMm.Some?
  }

  /** The two rows give field `f` the same ground truth and the same extracted value. */
  predicate SameInputs(f: Field, g1: GroundTruth, e1: Extraction, g2: GroundTruth, e2: Extraction) {
    match f
    case Laterality => g1.laterality == g2.laterality && e1.laterality == e2.laterality
    case Quadrant => g1.quadrant == g2.quadrant && e1.quadrant == e2.quadrant
    case Finding => g1.finding == g2.finding && e1.finding == e2.finding
    case Microcalcifications => g1.microcalcifications == g2.microcalcifications && e1.microcalcifications == e2.microcalcifications
    case SizeMm => g1.sizeMm == g2.sizeMm && e1.sizeMm == e2.sizeMm
  }

  /** Fields are independent: a field's report depends on that field's two values only. */
  lemma FieldsIndependent(f: Field, g1: GroundTruth, e1: Extraction, g2: GroundTruth, e2: Extraction, tol: real, show: real -> string)
    requires SameInputs(f, g1, e1, g2, e2)
    ensures Check(f, g1, e1, tol, show) == Check(f, g2, e2, tol, show)
  {
  }

  /** A field the extraction left empty is never reported, whatever the ground truth says. */
  lemma AbsentFieldNeverReported(f: Field, g: GroundTruth, e: Extraction, tol: real, show: real -> string)
    ensures !Extracted(f, e) ==> Check(f, g, e, tol, show) == None
  {
  }

  /** The failed extraction (`{"error": ...}`) is reported as agreeing with every row. */
  lemma NoExtractionNoMismatches(g: GroundTruth, tol: real, show: real -> string)
    ensures Mismatches(g, NO_EXTRACTION, tol, show) == []
    ensures Join(RenderAll(Mismatches(g, NO_EXTRACTION, tol, show)), "; ") == ""
  {
    AbsentFieldNeverReported(Laterality, g, NO_EXTRACTION, tol, show);
    AbsentFieldNeverReported(Quadrant, g, NO_EXTRACTION, tol, show);
    AbsentFieldNeverReported(Finding, g, NO_EXTRACTION, tol, show);
    AbsentFieldNeverReported(Microcalcifications, g, NO_EXTRACTION, tol, show);
    AbsentFieldNeverReported(SizeMm, g, NO_EXTRACTION, tol, show);
  }

  /**
   * A categorical field is reported exactly when the extraction has a value
   * that is not the ground truth's; a missing ground truth prints as "None".
   */
  lemma CategoricalReportedIff(f: Field, s: Option<string>, e: Option<string>)
    ensures CheckCategorical(f, s, e).Some? <==> e.Some? && s != Some(e.value)
    ensures CheckCategorical(f, s, e).Some? && s.None? ==>
              Render(CheckCategorical(f, s, e).value) == Name(f) + ": None vs " + e.value
    ensures CheckCategorical(f, s, e).Some? && s.Some? ==>
              Render(CheckCategorical(f, s, e).value) == Name(f) + ": " + s.value + " vs " + e.value
  {
  }

  /**
   * Python's `s_calc != e_calc` for a bool extraction: the ground truth agrees
   * exactly when it is that bool, or the integer 1 for True and 0 for False.
   */
  lemma CalcDiffersIsPythonInequality(s: CalcTruth, b: bool)
    ensures !CalcDiffers(s, b) <==> s == CalcBool(b) || s == CalcInt(if b then 1 else 0)
  {
  }

  /** The microcalcifications entry, when there is one, shows the extracted bool as True or False. */
  lemma CalcReportedIff(s: CalcTruth, e: Option<bool>)
    ensures CheckCalc(s, e).Some? <==> e.Some? && s != CalcBool(e.value) && s != CalcInt(if e.value then 1 else 0)
    ensures CheckCalc(s, e).Some? ==>
              Render(CheckCalc(s, e).value) == "microcalcifications: " + ShowCalc(s) + " vs " + (if e.value then "True" else "False")
  {
    if e.Some? { CalcDiffersIsPythonInequality(s, e.value); }
  }

  /** A ground-truth size that is absent is reported against any extracted size, at any tolerance. */
  lemma MissingTruthSizeReported(y: real, tol: real, show: real -> string)
    ensures CheckSize(SizeNone, Some(y), tol, show) == Some(Mismatch(SizeMm, "None", show(y)))
    ensures Render(CheckSize(SizeNone, Some(y), tol, show).value) == "size_mm: None vs " + show(y)
  {
  }

  /** A ground-truth size that `float()` cannot read is reported, at any tolerance, showing the raw cell. */
  lemma UnreadableTruthSizeReported(raw: string, y: real, tol: real, show: real -> string)
    ensures CheckSize(SizeText(raw, None), Some(y), tol, show) == Some(Mismatch(SizeMm, raw, show(y)))
  {
  }

  /**
   * Two readable sizes disagree exactly when they differ by strictly more than
   * the tolerance: a difference equal to the tolerance is accepted.
   */
  lemma SizeReportedIff(s: SizeTruth, x: real, y: real, tol: real, show: real -> string)
    requires SizeAsFloat(s) == Some(x)
    ensures CheckSize(s, Some(y), tol, show).Some? <==> x - y > tol || y - x > tol
    ensures CheckSize(s, Some(y), tol, show).Some? ==>
              CheckSize(s, Some(y), tol, show).value == Mismatch(SizeMm, ShowSize(s, show), show(y))
  {
  }

  /** Exchanging the two sizes does not change whether they are reported. */
  lemma SizeComparisonSymmetric(x: real, y: real, tol: real, show: real -> string)
    ensures CheckSize(SizeFloat(x), Some(y), tol, show).Some? <==> CheckSize(SizeFloat(y), Some(x), tol, show).Some?
  {
    SizeReportedIff(SizeFloat(x), x, y, tol, show);
    SizeReportedIff(SizeFloat(y), y, x, tol, show);
  }

  /** A size reported at some tolerance is reported at every smaller one. */
  lemma SizeToleranceMonotone(s: SizeTruth, e: Option<real>, tol1: real, tol2: real, show: real -> string)
    requires tol1 <= tol2
    ensures CheckSize(s, e, tol2, show).Some? ==> CheckSize(s, e, tol1, show).Some?
  {
  }

  /** At the default 1 mm: 10 against 11 agrees, 10 against 11.01 does not, and an integer cell reads as a float. */
  lemma DefaultToleranceExamples(show: real -> string)
    ensures CheckSize(SizeFloat(10.0), Some(11.0), SIZE_TOL_MM, show) == None
    ensures CheckSize(SizeFloat(10.0), Some(11.01), SIZE_TOL_MM, show) == Some(Mismatch(SizeMm, show(10.0), show(11.01)))
    ensures CheckSize(SizeInt(10), Some(11.0), SIZE_TOL_MM, show) == None
    ensures CheckSize(SizeText("10", Some(10.0)), Some(12.5), SIZE_TOL_MM, show) == Some(Mismatch(SizeMm, "10", show(12.5)))
  {
  }

  /** An extraction that agrees with the ground truth on every field it fills is not reported (at any non-negative tolerance). */
  lemma AgreementNeverReported(g: GroundTruth, e: Extraction, tol: real, show: real -> string)
    requires e.laterality.Some? ==> e.laterality == g.laterality
    requires e.quadrant.Some? ==> e.quadrant == g.quadrant
    requires e.finding.Some? ==> e.finding == g.finding
    requires e.microcalcifications.Some? ==> !CalcDiffers(g.microcalcifications, e.microcalcifications.value)
    requires e.sizeMm.Some? ==> SizeAsFloat(g.sizeMm) == Some(e.sizeMm.value)
    requires tol >= 0.0
    ensures Mismatches(g, e, tol, show) == []
  {
  }

  /** Python's equality across types: the int cell 1 agrees with True, and the int cell 14 with 14.0 mm. */
  lemma IntCellsAgree(show: real -> string)
    ensures var g := GroundTruth(Some("left"), None, None, CalcInt(1), SizeInt(14), None);
      var e := Extraction(Some("left"), None, None, Some(true), Some(14.0));
      Mismatches(g, e, SIZE_TOL_MM, show) == []
  {
    var g := GroundTruth(Some("left"), None, None, CalcInt(1), SizeInt(14), None);
    var e := Extraction(Some("left"), None, None, Some(true), Some(14.0));
    AgreementNeverReported(g, e, SIZE_TOL_MM, show);
  }

  /** One disagreeing field gives exactly one entry, e.g. "laterality: left vs right". */
  lemma OnlyLateralityDiffers(show: real -> string)
    ensures var g := GroundTruth(Some("left"), Some("upper outer"), Some("mass"), CalcBool(false), SizeFloat(14.0), Some("report"));
      var e := Extraction(Some("right"), Some("upper outer"), Some("mass"), Some(false), Some(14.0));
      Join(RenderAll(Mismatches(g, e, SIZE_TOL_MM, show)), "; ") == "laterality: left vs right"
  {
    var g := GroundTruth(Some("left"), Some("upper outer"), Some("mass"), CalcBool(false), SizeFloat(14.0), Some("report"));
    var e := Extraction(Some("right"), Some("upper outer"), Some("mass"), Some(false), Some(14.0));
    assert Some("left") != Some("right") by { assert "left"[0] != "right"[0]; }
    assert Mismatches(g, e, SIZE_TOL_MM, show) == [Mismatch(Laterality, "left", "right")];
  }

  /** A row can disagree on several fields: here microcalcifications and size, in that order. */
  lemma TwoEntriesInOrder(show: real -> string)
    ensures var g := GroundTruth(Some("left"), Some("upper outer"), Some("mass"), CalcNone, SizeNone, None);
      var e := Extraction(Some("left"), Some("upper outer"), Some("mass"), Some(true), Some(5.0));
      RenderAll(Mismatches(g, e, SIZE_TOL_MM, show)) ==
        ["microcalcifications: None vs True", "size_mm: None vs " + show(5.0)]
  {
    var g := GroundTruth(Some("left"), Some("upper outer"), Some("mass"), CalcNone, SizeNone, None);
    var e := Extraction(Some("left"), Some("upper outer"), Some("mass"), Some(true), Some(5.0));
    var ms := Mismatches(g, e, SIZE_TOL_MM, show);
    assert ms == [Mismatch(Microcalcifications, "None", "True"), Mismatch(SizeMm, "None", show(5.0))];
    assert RenderAll(ms) == [Render(ms[0]), Render(ms[1])];
    RenderedTexts(show(5.0));
  }

  lemma RenderedTexts(shown: string)
    ensures Render(Mismatch(Microcalcifications, "None", "True")) == "microcalcifications: None vs True"
    ensures Render(Mismatch(SizeMm, "None", shown)) == "size_mm: None vs " + shown
  {
  }
}
