# Radiology report validator: extraction and comparison, in Dafny

The radiology report validator reads free-text mammography reports and compares
what it extracts with the structured ground truth stored beside each report.
This project models the two parts of it that hold logic.

- **The local heuristic extractor** (`extract_fields_locally`). It normalises a
  report: lower case, with hyphens and underscores turned into spaces. It then
  applies first-match rules that fill five fields: laterality, quadrant,
  finding, a tri-state microcalcifications flag, and a size in millimetres.
- **The comparator** (`validate_row`). It compares one ground-truth row with
  one extraction, field by field. It passes the extracted fields through,
  counts the disagreements, and joins them into one `"; "`-separated list of
  `"field: ground-truth vs extracted"` entries in a fixed field order. Sizes are
  compared under a tolerance of 1 mm by default, and an absent extraction is
  never reported.

Files:

- `Wrappers.dfy`: `Option`, which stands for Python's `None` or a value.
- `Text.dfy`: the character classes, normalisation, substring search (`p in t`),
  whole-word search (`\bw\b`), runs of digits and whitespace, and decimal numerals.
- `Schema.dfy`: the five-field `Extraction` record, `QUADS` and the finding vocabulary.
- `Extractor.dfy`: `ExtractFieldsLocally`, which is the routine with its search
  loops. It is proved equal to the reference function `Extract`, and each of
  its rules is stated as a lemma about `Extract`.
- `Validator.dfy`: `ValidateRow` and `CollectMismatches`, which build the list
  append by append as the source does. They are proved equal to the reference
  definition `Mismatches`, and the comparison's promises are stated as lemmas
  about `Mismatches`.

The regular expressions become hand-written matchers over `seq<char>`:

- `\b` is `Boundary`.
- The size pattern `(\d+(?:\.\d+)?)\s*mm` is `SizeMatchAt` and `SizeValueAt`.
  `SizeRegexMatchIsUnique` and `SizeMatchIsRegexMatch` show that reading it
  with greedy runs gives the only match that can start at a position, so the
  captured group is the one Python's engine returns.
- The negation pattern is `NegationAt`. `NegationRegexMatchIsNegationAt` and
  `NegationAtIsRegexMatch` show that it accepts exactly the positions where a
  literal match of the pattern starts.
- The presence pattern `micro\s?calcifications|calcifications` is proved to be
  the substring "calcifications" (`PresentIffCalcifications`). The routine
  searches for that substring.

The finding rule tests for the substring "no suspicious" before any lesion
word (extractor_regex.py:31-34), and that substring occurs inside "No
suspicious microcalcifications". So a report such as "Right breast, upper
outer quadrant, irregular mass measuring 14 mm. No suspicious
microcalcifications." gets the finding "no suspicious finding", not "mass".
`NoSuspiciousMicrocalcificationsSentence` proves this for every report that
contains that sentence.

## Model

| member | source | states |
|---|---|---|
| Text.Normalize | extractor_regex.py:7 | the normal form has the report's length; each character is lowered, and a hyphen or underscore becomes a space; no upper-case letter, hyphen or underscore is left |
| Text.NormalizeIdempotent | extractor_regex.py:7 | normalising an already normalised report changes nothing |
| Text.NormalizeConcat | extractor_regex.py:7 | normalisation works character by character, so the normal form of a concatenation is the concatenation of the normal forms |
| Text.UpperOuterSpellings | extractor_regex.py:7 | "Upper-Outer", "UPPER_OUTER" and "upper outer" all normalise to "upper outer" |
| Text.Contains | extractor_regex.py:17 | the left-to-right scan answers true exactly when the pattern occurs somewhere in the text (Python's `q in t`) |
| Text.ContainsWord | extractor_regex.py:11 | the scan answers true exactly when the word occurs with a `\b` boundary on both sides |
| Text.WordNeedsBoundaries | extractor_regex.py:11 | for a word that begins and ends with word characters, `\bw\b` matches exactly when the neighbouring characters are non-word characters or the ends of the text |
| Text.DigitRunIsMaximal | extractor_regex.py:21 | a run of digits followed by a non-digit ends where the greedy `\d+` stops |
| Text.SpaceRunIsMaximal | extractor_regex.py:21 | a run of whitespace followed by a non-space ends where the greedy `\s*` stops |
| Extractor.FirstWord | extractor_regex.py:9-13 | absent exactly when no key occurs as a word; otherwise a key that occurs as a word, with no earlier key in the list doing so |
| Extractor.FirstSubstring | extractor_regex.py:15-19 | absent exactly when no key occurs as a substring; otherwise the first key, in list order, that does |
| Extractor.SearchFirstWord | extractor_regex.py:10-13 | the loop over the keys, stopping at the first whole-word hit, returns FirstWord |
| Extractor.SearchFirstSubstring | extractor_regex.py:16-19 | the loop over the keys, stopping at the first substring hit, returns FirstSubstring |
| Extractor.SizeFrom | extractor_regex.py:21-22 | the value of the leftmost size match at or after a position, or nothing; never negative; SizeFromIsLeftmost characterises it |
| Extractor.SizeFromIsLeftmost | extractor_regex.py:21-22 | the size search from a position finds nothing exactly when no size match starts there or later; otherwise it gives the value of the leftmost match |
| Extractor.SizeRegexMatchIsUnique | extractor_regex.py:21 | any match of `(\d+(?:\.\d+)?)\s*mm` at a start position has the greedy shape, so its group is unique |
| Extractor.SizeMatchIsRegexMatch | extractor_regex.py:21 | every position the size matcher accepts does start a match of the regular expression |
| Extractor.SearchSize | extractor_regex.py:21-22 | the scan returns the value of the leftmost size match, or nothing |
| Extractor.NegationRegexMatchIsNegationAt | extractor_regex.py:24 | any literal match of the negation pattern has its first whitespace run ending where the greedy run ends, and is accepted by the negation matcher |
| Extractor.NegationAtIsRegexMatch | extractor_regex.py:24 | every position the negation matcher accepts starts a literal match of the pattern |
| Extractor.SearchNegation | extractor_regex.py:24 | the scan answers true exactly when the negation pattern matches somewhere |
| Extractor.MicrocalcificationsOf | extractor_regex.py:24-29 | the tri-state rule; absent exactly when "calcifications" does not occur (the full rule is MicrocalcificationsRule) |
| Extractor.FindingOf | extractor_regex.py:31-36 | the finding rule; its value is always one of the findings vocabulary (the priority order is FindingRule) |
| Extractor.PresentIffCalcifications | extractor_regex.py:26 | the presence pattern matches exactly when "calcifications" occurs |
| Extractor.NegatedHasCalcifications | extractor_regex.py:24 | every text the negation pattern matches contains "calcifications" |
| Extractor.Extract | extractor_regex.py:38-44 | the extractor is total: every field is absent or drawn from its vocabulary (laterality from left/right, quadrant from QUADS, finding from the findings list), and a size is never negative |
| Extractor.ExtractFieldsLocally | extractor_regex.py:6-44 | the routine, with its loops, branches and searches, returns exactly Extract of the report |
| Extractor.ExtractSeesOnlyNormalForm | extractor_regex.py:7 | the extraction depends only on the normalised report |
| Extractor.HyphenatedQuadrant | extractor_regex.py:7-19 | "Upper-Outer" is extracted exactly like "upper outer", and its quadrant is "upper outer" |
| Extractor.LateralityRule | extractor_regex.py:9-13 | laterality is "left" exactly when "left" stands as a word; it is "right" exactly when "right" does and "left" does not; it is absent exactly when neither does |
| Extractor.QuadrantRule | extractor_regex.py:4-19 | quadrant is absent exactly when no QUADS phrase occurs; otherwise it is the first phrase in QUADS order that occurs |
| Extractor.SizeRule | extractor_regex.py:21-22 | size is absent exactly when no "digits[.digits] whitespace* mm" match occurs; otherwise it is the value of the leftmost match |
| Extractor.NoMillimetresNoSize | extractor_regex.py:21-22 | a report with no "mm", in any letter case, has no size |
| Extractor.MicrocalcificationsRule | extractor_regex.py:24-29 | the flag is False when the negation matches. Otherwise, when "calcifications" occurs, it is True exactly when "benign" is absent. It is absent exactly when "calcifications" does not occur |
| Extractor.FindingRule | extractor_regex.py:31-36 | "no suspicious finding" whenever "no suspicious" or "birads 1" occurs, whatever else does; "mass" exactly when neither occurs but "mass", "lesion" or "focus" does; absent exactly when none of these occurs |
| Extractor.LeftWinsOverRight | extractor_regex.py:10-13 | "Left and right" has laterality "left" |
| Extractor.LeftwardIsNotLeft | extractor_regex.py:11 | "leftward" has no laterality, because "left" inside a longer word is not a whole word |
| Extractor.NoSuspiciousMicrocalcificationsSentence | extractor_regex.py:24-32 | any report containing "No suspicious microcalcifications" has finding "no suspicious finding" and microcalcifications False |
| Validator.CheckCategorical | validator.py:23-28 | the rule for laterality, quadrant and finding: a report is about its own field and shows the extracted value, and exists only when there is an extracted value (the exact condition is CategoricalReportedIff) |
| Validator.CheckCalc | validator.py:29-30 | the microcalcifications rule: a report exists only for an extracted value and shows it as True or False (the exact condition is CalcReportedIff) |
| Validator.CheckSize | validator.py:32-40 | the size rule: a report exists only for an extracted size and shows it (the cases are MissingTruthSizeReported, UnreadableTruthSizeReported, SizeReportedIff) |
| Validator.Mismatches | validator.py:6-40 | the disagreements in field order, at most five (order and membership are MismatchesInFieldOrder and ReportedExactlyByItsRule) |
| Validator.CollectMismatches | validator.py:6-40 | the guarded `add` calls leave exactly the rendered disagreements, in field order |
| Validator.ValidateRow | validator.py:5-51 | the tolerance defaults to SIZE_TOL_MM (1 mm); the five extracted fields pass through unchanged; report_text is the ground truth's or ""; mismatch_count is the number of disagreements; mismatches is their entries joined by "; " |
| Validator.ValidateFailedExtraction | validator.py:5-51 | the two-argument call, with the default 1 mm tolerance, on an extraction that failed gives no mismatches, an empty mismatch text, all five extracted fields absent and the report text |
| Validator.MismatchesInFieldOrder | validator.py:23-40 | there are at most five entries, in the order laterality, quadrant, finding, microcalcifications, size_mm, with each field at most once |
| Validator.ReportedExactlyByItsRule | validator.py:23-40 | a field appears in the list exactly when its own rule reports it, and then as that report |
| Validator.FieldsIndependent | validator.py:11-40 | a field's report depends only on that field's ground-truth and extracted values |
| Validator.AbsentFieldNeverReported | validator.py:23-32 | a field the extraction leaves absent is never reported, whatever the ground truth |
| Validator.NoExtractionNoMismatches | validator.py:11-49 | an all-absent extraction, which is what an `{"error": ...}` result reads as, gives no disagreements and an empty mismatch text |
| Validator.CategoricalReportedIff | validator.py:7-28 | a categorical field is reported exactly when the extraction has a value that differs from the ground truth; the entry is "name: s vs e", with "None" for a missing ground truth |
| Validator.CalcDiffersIsPythonInequality | validator.py:29 | a ground-truth cell equals an extracted bool exactly when it is that bool, or the integer 1 for True and 0 for False |
| Validator.CalcReportedIff | validator.py:29-30 | microcalcifications is reported exactly when the extraction has a value that the ground-truth cell does not equal; the entry shows True or False |
| Validator.MissingTruthSizeReported | validator.py:32-34 | an extracted size against a missing ground-truth size is always reported, as "size_mm: None vs ..." |
| Validator.UnreadableTruthSizeReported | validator.py:36-40 | a ground-truth size that float() cannot read is reported at any tolerance, showing the raw cell |
| Validator.SizeReportedIff | validator.py:36-38 | two readable sizes are reported exactly when they differ by strictly more than the tolerance |
| Validator.SizeComparisonSymmetric | validator.py:37 | swapping the two sizes does not change whether they are reported |
| Validator.SizeToleranceMonotone | validator.py:37 | a size reported at some tolerance is also reported at every smaller tolerance |
| Validator.DefaultToleranceExamples | validator.py:3-37 | at the default 1 mm: 10 against 11 agrees, 10 against 11.01 is reported, an integer cell 10 reads as 10.0, and the text "10" against 12.5 is reported |
| Validator.AgreementNeverReported | validator.py:23-38 | an extraction that agrees with the ground truth on every field it fills is not reported, at any non-negative tolerance |
| Validator.IntCellsAgree | validator.py:29-37 | an int cell 1 agrees with True, and an int size 14 with 14.0, so neither is reported |
| Validator.OnlyLateralityDiffers | validator.py:7-49 | a row that disagrees only on laterality gives exactly "laterality: left vs right" |
| Validator.TwoEntriesInOrder | validator.py:29-34 | a row that disagrees on microcalcifications and on size lists the microcalcifications entry first, then "size_mm: None vs ..." |

## Left out

- The interactive shell (app.py) is not part of this model. It covers the upload widgets, reading and writing CSV files, the table display, the download, and the per-row error handling around the extractor call. These are UI and I/O.
- The hosted-model extractor (extractor_bedrock.py) is not part of this model. It is a network client whose reply is parsed by JSON and schema-validation libraries that are not part of this model. Its only effect on the comparator is an extraction or a failure, and a failure is modelled as `NO_EXTRACTION`.
- Floating point: sizes and the tolerance are exact reals, so IEEE rounding in `abs(float(s) - float(e))` is not modelled. `float()` of a text cell is the cell's `parsed` component, which is None when the call raises. No parser for float syntax is modelled.
- Validator.ValidateRow: `str()` of a float, which is Python's shortest round-trip text, is the parameter `show`. So entries are stated in terms of `show(x)` rather than as concrete digits.
- Blank cells that pandas reads as NaN are not modelled. NaN is not None, so a categorical or microcalcifications NaN cell would compare unequal to every extracted value. A blank (NaN) ground-truth size is the opposite case: it is not None, and `abs(nan - e) > tol` is false, so it is never reported.
- Ground-truth cells: categorical cells are strings or None. Other Python values in those columns, which would compare unequal, are not modelled. Microcalcifications cells are None, a bool, an int or text, and size cells are None, a float, an int or text.
- Float microcalcifications cells are not modelled. pandas reads a 0/1 column that has a blank as floats, and Python treats the cells `1.0` and `0.0` as equal to True and False. The model has no such cell, so it does not say that these agree.
- A size text cell that `float()` reads as `nan` is not modelled. Every comparison with NaN is false, so such a cell is never reported. `SizeText(raw, parsed)` holds either a real number or nothing, so it cannot express this case.
- Unicode: `str.lower` is modelled for the ASCII letters only, and `\w`, `\d` use the ASCII letters, the digits and the underscore. Non-ASCII letters and digits, which Python also lowers or treats as word characters, are not modelled. `\s` is the full set `str.isspace` accepts.
- Extractor.ExtractFieldsLocally: the three chained normalisation calls (`lower`, then two `replace` calls) are one call of `Normalize`, which is defined as exactly that composition in `Text`. The two search loops are the generic methods `SearchFirstWord` and `SearchFirstSubstring`, called with the key lists of the source.
- Extractor.SearchSize, Extractor.SearchNegation: `re.search` is a left-to-right scan with the pattern-specific matchers at each position. The general regular-expression engine is not modelled.
- Validator.FieldsIndependent: it states that each field's rule reads only that field's inputs. That the list then changes only in that field's entry follows from ReportedExactlyByItsRule, and is not restated.
