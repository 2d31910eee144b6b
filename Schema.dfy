/**
 * The five-field extraction record every extractor produces and the
 * comparator consumes, with the vocabulary each field is drawn from.
 */
module Schema {
  import opened Wrappers

  /** An extraction: each field is a value or absent (None). */
  datatype Extraction = Extraction(
    laterality: Option<string>,
    quadrant: Option<string>,
    finding: Option<string>,
    microcalcifications: Option<bool>,
    sizeMm: Option<real>)

  /**
   * What the comparator reads from an extraction that failed: the orchestrator
   * passes `{"error": ...}`, and every `.get` of a field on it yields None.
   */
  const NO_EXTRACTION: Extraction := Extraction(None, None, None, None, None)

  const LATERALITIES: seq<string> := ["left", "right"]

  /** The quadrant phrases, in the order they are tried. */
  const QUADS: seq<string> := ["upper outer", "upper inner", "lower outer", "lower inner", "retroareolar"]

  const NO_SUSPICIOUS_FINDING: string := "no suspicious finding"
  const MASS: string := "mass"

  /** The finding values an extraction may carry. */
  const FINDINGS: seq<string> := [MASS, NO_SUSPICIOUS_FINDING, "other"]

  /** Every present field is drawn from its documented vocabulary; sizes are non-negative. */
  predicate Conforms(r: Extraction) {
    (r.laterality.Some? ==> r.laterality.value in LATERALITIES) &&
    (r.quadrant.Some? ==> r.quadrant.value in QUADS) &&
    (r.finding.Some? ==> r.finding.value in FINDINGS) &&
    (r.sizeMm.Some? ==> r.sizeMm.value >= 0.0)
  }
}
