/**
 * The local heuristic extractor (`extract_fields_locally`): first-match rules
 * over the normalised report that fill the five fields of an Extraction.
 *
 * `Extract` is the reference definition, stated with the matching predicates
 * of each rule; `ExtractFieldsLocally` is the routine itself, with its search
 * loops, and is proved to compute `Extract`. The lemmas after it state what
 * each rule promises.
 */
module Extractor {
  import opened Wrappers
  import opened Text
  import opened Schema

  // ---------------------------------------------------------------------
  // Laterality and quadrant: the first key, in list order, that is found
  // ---------------------------------------------------------------------

  /** The first key of `keys` that stands as a whole word in `t`. */
  function FirstWord(keys: seq<string>, t: string): (r: Option<string>)
    ensures r.None? <==> forall n | 0 <= n < |keys| :: !OccursAsWord(t, keys[n])
    ensures r.Some? ==>
              r.value in keys &&
              exists n | 0 <= n < |keys| :: keys[n] == r.value && OccursAsWord(t, keys[n]) &&
                forall m | 0 <= m < n :: !OccursAsWord(t, keys[m])
  {
    if keys == [] then None
    else if OccursAsWord(t, keys[0]) then Some(keys[0])
    else
      var r := FirstWord(keys[1..], t);
      assert forall n | 1 <= n < |keys| :: keys[n] == keys[1..][n - 1];
      r
  }

  /** The first key of `keys` that occurs in `t` as a substring. */
  function FirstSubstring(keys: seq<string>, t: string): (r: Option<string>)
    ensures r.None? <==> forall n | 0 <= n < |keys| :: !Occurs(t, keys[n])
    ensures r.Some? ==>
              r.value in keys &&
              exists n | 0 <= n < |keys| :: keys[n] == r.value && Occurs(t, keys[n]) &&
                forall m | 0 <= m < n :: !Occurs(t, keys[m])
  {
    if keys == [] then None
    else if Occurs(t, keys[0]) then Some(keys[0])
    else
      var r := FirstSubstring(keys[1..], t);
      assert forall n | 1 <= n < |keys| :: keys[n] == keys[1..][n - 1];
      r
  }

  /** Tries the keys in order and stops at the first one that stands as a whole word in `t`. */
  method SearchFirstWord(keys: seq<string>, t: string) returns (found: Option<string>)
    ensures found == FirstWord(keys, t)
  {
    found := None;
    var n := 0;
    while n < |keys|
      invariant 0 <= n <= |keys|
      invariant FirstWord(keys[n..], t) == FirstWord(keys, t)
    {
      var k := keys[n];
      var hit := ContainsWord(t, k);
      if hit {
        found := Some(k);
        break;
      }
      assert keys[n..][1..] == keys[n + 1..];
      n := n + 1;
    }
  }

  /** Tries the keys in order and stops at the first one that occurs anywhere in `t`. */
  method SearchFirstSubstring(keys: seq<string>, t: string) returns (found: Option<string>)
    ensures found == FirstSubstring(keys, t)
  {
    found := None;
    var n := 0;
    while n < |keys|
      invariant 0 <= n <= |keys|
      invariant FirstSubstring(keys[n..], t) == FirstSubstring(keys, t)
    {
      var q := keys[n];
      var hit := Contains(t, q);
      if hit {
        found := Some(q);
        break;
      }
      assert keys[n..][1..] == keys[n + 1..];
      n := n + 1;
    }
  }

  // ---------------------------------------------------------------------
  // Size: the leftmost numeral, with an optional decimal part, followed by
  // optional whitespace and "mm"; its value is the size in millimetres
  // ---------------------------------------------------------------------

  /** Where the numeral `\d+(?:\.\d+)?` that starts at digit `i` ends (greedily). */
  function NumeralEnd(t: string, i: int): (l: int)
    requires 0 <= i < |t| && IsDigit(t[i])
    ensures i < l <= |t|
  {
    var j := DigitEnd(t, i);
    if j + 1 < |t| && t[j] == '.' && IsDigit(t[j + 1]) then DigitEnd(t, j + 1) else j
  }

  /** The size pattern matches starting at position `i`. */
  predicate SizeMatchAt(t: string, i: int) {
    0 <= i < |t| && IsDigit(t[i]) && OccursAt(t, "mm", SpaceEnd(t, NumeralEnd(t, i)))
  }

  /** float() of the numeral captured by a match at `i`. */
  function SizeValueAt(t: string, i: int): (v: real)
    requires SizeMatchAt(t, i)
    ensures v >= 0.0
  {
    var j := DigitEnd(t, i);
    var l := NumeralEnd(t, i);
    var whole := t[i..j];
    assert forall k | 0 <= k < |whole| :: IsDigit(whole[k]);
    if l == j then DecimalValue(whole, "")
    else
      var frac := t[j + 1..l];
      assert forall k | 0 <= k < |frac| :: IsDigit(frac[k]);
      DecimalValue(whole, frac)
  }

  /** The value of the leftmost size match at or after position `i`. */
  function SizeFrom(t: string, i: int): (r: Option<real>)
    requires 0 <= i <= |t|
    ensures r.Some? ==> r.value >= 0.0
    decreases |t| - i
  {
    if i == |t| then None
    else if SizeMatchAt(t, i) then Some(SizeValueAt(t, i))
    else SizeFrom(t, i + 1)
  }

  /** SizeFrom finds the leftmost match: none at all, or the value of the first one. */
  lemma {:induction false} SizeFromIsLeftmost(t: string, i: int)
    requires 0 <= i <= |t|
    ensures SizeFrom(t, i).None? <==> forall k | i <= k < |t| :: !SizeMatchAt(t, k)
    ensures SizeFrom(t, i).Some? ==>
              exists k | i <= k < |t| :: SizeMatchAt(t, k) && SizeFrom(t, i).value == SizeValueAt(t, k) &&
                forall m | i <= m < k :: !SizeMatchAt(t, m)
    decreases |t| - i
  {
    if i < |t| && !SizeMatchAt(t, i) {
      SizeFromIsLeftmost(t, i + 1);
      if SizeFrom(t, i).Some? {
        var k :| i + 1 <= k < |t| && SizeMatchAt(t, k) && SizeFrom(t, i).value == SizeValueAt(t, k) &&
                 forall m | i + 1 <= m < k :: !SizeMatchAt(t, m);
        assert forall m | i <= m < k :: !SizeMatchAt(t, m);
      }
    } else if i < |t| {
      assert SizeFrom(t, i).value == SizeValueAt(t, i);
    }
  }

  /**
   * The regular expression read literally: `t[i..k+2]` is a match whose
   * integer digits are `t[i..j]`, whose captured numeral is `t[i..l]`, and
   * whose whitespace is `t[l..k]`.
   */
  ghost predicate SizeRegexMatch(t: string, i: int, j: int, l: int, k: int) {
    0 <= i < j <= l <= k && k + 2 <= |t| &&
    (forall m | i <= m < j :: IsDigit(t[m])) &&
    (l == j || (t[j] == '.' && j + 1 < l && forall m | j + 1 <= m < l :: IsDigit(t[m]))) &&
    (forall m | l <= m < k :: IsSpace(t[m])) &&
    t[k..k + 2] == "mm"
  }

  /**
   * A match of the size pattern that starts at `i` has only one shape: the one
   * SizeMatchAt reads off with greedy runs. So whatever match the regex engine
   * settles on at the leftmost start, its group is `t[i..NumeralEnd(t, i)]`.
   */
  lemma SizeRegexMatchIsUnique(t: string, i: int, j: int, l: int, k: int)
    requires SizeRegexMatch(t, i, j, l, k)
    ensures SizeMatchAt(t, i)
    ensures j == DigitEnd(t, i) && l == NumeralEnd(t, i) && k == SpaceEnd(t, l)
  {
    assert !IsDigit(t[j]) by {
      if l == j && j < k { assert IsSpace(t[j]); }
      else if l == j { assert t[k..k + 2][0] == 'm'; }
    }
    DigitRunIsMaximal(t, i, j);
    assert t[k] == t[k..k + 2][0] == 'm';
    if l != j {
      assert l == |t| || !IsDigit(t[l]) by { if l < k { assert IsSpace(t[l]); } }
      DigitRunIsMaximal(t, j + 1, l);
    }
    SpaceRunIsMaximal(t, l, k);
  }

  /** Conversely, every position where SizeMatchAt holds starts a match of the pattern. */
  lemma SizeMatchIsRegexMatch(t: string, i: int)
    requires SizeMatchAt(t, i)
    ensures SizeRegexMatch(t, i, DigitEnd(t, i), NumeralEnd(t, i), SpaceEnd(t, NumeralEnd(t, i)))
  {
  }

  /** Left-to-right search for the first size match. */
  method SearchSize(t: string) returns (size: Option<real>)
    ensures size == SizeFrom(t, 0)
  {
    var i := 0;
    while i < |t|
      invariant 0 <= i <= |t|
      invariant SizeFrom(t, i) == SizeFrom(t, 0)
    {
      if SizeMatchAt(t, i) {
        return Some(SizeValueAt(t, i));
      }
      i := i + 1;
    }
    return None;
  }

  // ---------------------------------------------------------------------
  // Microcalcifications
  // ---------------------------------------------------------------------

  /** `micro\s?calcifications` matches at `k`. */
  predicate MicroCalcAt(t: string, k: int) {
    OccursAt(t, "micro", k) &&
    (OccursAt(t, "calcifications", k + 5) ||
     (k + 5 < |t| && IsSpace(t[k + 5]) && OccursAt(t, "calcifications", k + 6)))
  }

  /**
   * `no\s+(suspicious\s+)?micro\s?calcifications|no\s+calcifications` matches
   * at `i`. Every `\s+` here is followed by a letter, so it can only stop at
   * the end of the whitespace run (SpaceRunIsMaximal).
   */
  predicate NegationAt(t: string, i: int) {
    OccursAt(t, "no", i) &&
    var k := SpaceEnd(t, i + 2);
    k > i + 2 &&
    (MicroCalcAt(t, k) || OccursAt(t, "calcifications", k) || SuspiciousMicroCalcAt(t, k))
  }

  /** `suspicious\s+micro\s?calcifications` matches at `k`. */
  predicate SuspiciousMicroCalcAt(t: string, k: int) {
    OccursAt(t, "suspicious", k) &&
    var k2 := SpaceEnd(t, k + 10);
    k2 > k + 10 && MicroCalcAt(t, k2)
  }

  predicate Negated(t: string) {
    exists i | 0 <= i < |t| :: NegationAt(t, i)
  }

  /** `micro\s?calcifications|calcifications` matches at `i`. */
  predicate PresenceAt(t: string, i: int) {
    MicroCalcAt(t, i) || OccursAt(t, "calcifications", i)
  }

  predicate Present(t: string) {
    exists i | 0 <= i < |t| :: PresenceAt(t, i)
  }

  /** Left-to-right search for the negation pattern. */
  method SearchNegation(t: string) returns (found: bool)
    ensures found <==> Negated(t)
  {
    var i := 0;
    while i < |t|
      invariant 0 <= i <= |t|
      invariant forall j | 0 <= j < i :: !NegationAt(t, j)
    {
      if NegationAt(t, i) {
        return true;
      }
      i := i + 1;
    }
    return false;
  }

  /** The tri-state rule: negated, else present (False when "benign" occurs), else unknown. */
  function MicrocalcificationsOf(t: string): (r: Option<bool>)
    ensures r.None? <==> !Occurs(t, "calcifications")
  {
    PresentIffCalcifications(t);
    if Negated(t) then NegatedHasCalcifications(t); Some(false)
    else if Present(t) then Some(!Occurs(t, "benign"))
    else None
  }

  // ---------------------------------------------------------------------
  // Finding
  // ---------------------------------------------------------------------

  function FindingOf(t: string): (r: Option<string>)
    ensures r.Some? ==> r.value in FINDINGS
  {
    if Occurs(t, "no suspicious") || Occurs(t, "birads 1") then Some(NO_SUSPICIOUS_FINDING)
    else if Occurs(t, "mass") || Occurs(t, "lesion") || Occurs(t, "focus") then Some(MASS)
    else None
  }

  // ---------------------------------------------------------------------
  // The extractor
  // ---------------------------------------------------------------------

  /** The five fields read off an already normalised report. */
  function ExtractNormalized(t: string): Extraction {
    Extraction(
      FirstWord(LATERALITIES, t),
      FirstSubstring(QUADS, t),
      FindingOf(t),
      MicrocalcificationsOf(t),
      SizeFrom(t, 0))
  }

  /**
   * What the extractor returns for a report: never a failure, always the five
   * fields, each absent or drawn from its vocabulary.
   */
  function Extract(text: string): (r: Extraction)
    ensures Conforms(r)
  {
    ExtractNormalized(Normalize(text))
  }

  method ExtractFieldsLocally(text: string) returns (r: Extraction)
    ensures r == Extract(text)
  {
    // the report in lower case, hyphens and underscores read as spaces
    var t := Normalize(text);

    // the first of left/right that stands as a word
    var laterality := SearchFirstWord(LATERALITIES, t);

    // the first quadrant phrase that occurs
    var quadrant := SearchFirstSubstring(QUADS, t);

    // the leftmost size measurement
    var sizeMm := SearchSize(t);

    // negated, otherwise present (and not benign), otherwise unknown
    var microcalcs: Option<bool>;
    var negated := SearchNegation(t);
    if negated {
      microcalcs := Some(false);
    } else {
      PresentIffCalcifications(t);
      var present := Contains(t, "calcifications");
      if present {
        var benign := Contains(t, "benign");
        microcalcs := Some(!benign);
      } else {
        microcalcs := None;
      }
    }
    assert microcalcs == MicrocalcificationsOf(t);

    // a negative finding takes priority over a lesion word
    var finding: Option<string>;
    var noSuspicious := Contains(t, "no suspicious");
    var birads1 := Contains(t, "birads 1");
    if noSuspicious || birads1 {
      finding := Some(NO_SUSPICIOUS_FINDING);
    } else {
      var mass := Contains(t, "mass");
      var lesion := Contains(t, "lesion");
      var focus := Contains(t, "focus");
      if mass || lesion || focus {
        finding := Some(MASS);
      } else {
        finding := None;
      }
    }

    assert finding == FindingOf(t);
    r := Extraction(laterality, quadrant, finding, microcalcs, sizeMm);
  }

  // ---------------------------------------------------------------------
  // Properties of the rules
  // ---------------------------------------------------------------------

  /** The presence pattern `micro\s?calcifications|calcifications` is the substring "calcifications". */
  lemma PresentIffCalcifications(t: string)
    ensures Present(t) <==> Occurs(t, "calcifications")
  {
    if Present(t) {
      var i :| 0 <= i < |t| && PresenceAt(t, i);
      if MicroCalcAt(t, i) { MicroCalcHasCalcifications(t, i); }
    }
    if Occurs(t, "calcifications") {
      var i :| 0 <= i <= |t| - 14 && OccursAt(t, "calcifications", i);
      assert PresenceAt(t, i);
    }
  }

  /**
   * The negation pattern read literally: "no" at `i`, a non-empty run of
   * whitespace `t[i+2..k]`, then one of the three alternatives at `k`; in the
   * "suspicious" alternative `t[k+10..k2]` is the second non-empty run of
   * whitespace.
   */
  ghost predicate NegationRegexMatch(t: string, i: int, k: int, k2: int) {
    OccursAt(t, "no", i) && i + 2 < k <= |t| &&
    (forall m | i + 2 <= m < k :: IsSpace(t[m])) &&
    (MicroCalcAt(t, k) || OccursAt(t, "calcifications", k) ||
     (OccursAt(t, "suspicious", k) && k + 10 < k2 <= |t| &&
      (forall m | k + 10 <= m < k2 :: IsSpace(t[m])) && MicroCalcAt(t, k2)))
  }

  /**
   * Every literal match of the negation pattern has its whitespace runs
   * ending where SpaceEnd says, because each run is followed by a letter: so
   * the greedy reading NegationAt accepts it.
   */
  lemma NegationRegexMatchIsNegationAt(t: string, i: int, k: int, k2: int)
    requires NegationRegexMatch(t, i, k, k2)
    ensures k == SpaceEnd(t, i + 2)
    ensures NegationAt(t, i)
  {
    if MicroCalcAt(t, k) {
      OccursAtFirst(t, "micro", k);
    } else if OccursAt(t, "calcifications", k) {
      OccursAtFirst(t, "calcifications", k);
    } else {
      OccursAtFirst(t, "suspicious", k);
      SuspiciousRunIsMaximal(t, k, k2);
    }
    SpaceRunIsMaximal(t, i + 2, k);
  }

  /** The second whitespace run, in the "suspicious" alternative, also ends where SpaceEnd says. */
  lemma SuspiciousRunIsMaximal(t: string, k: int, k2: int)
    requires OccursAt(t, "suspicious", k) && k + 10 < k2 <= |t|
    requires forall m | k + 10 <= m < k2 :: IsSpace(t[m])
    requires MicroCalcAt(t, k2)
    ensures SuspiciousMicroCalcAt(t, k)
  {
    OccursAtFirst(t, "micro", k2);
    SpaceRunIsMaximal(t, k + 10, k2);
  }

  /** Conversely, every position NegationAt accepts starts a literal match of the pattern. */
  lemma NegationAtIsRegexMatch(t: string, i: int)
    requires NegationAt(t, i)
    ensures var k := SpaceEnd(t, i + 2);
      NegationRegexMatch(t, i, k, if k + 10 <= |t| then SpaceEnd(t, k + 10) else k)
  {
    var k := SpaceEnd(t, i + 2);
    if !MicroCalcAt(t, k) && !OccursAt(t, "calcifications", k) {
      assert SuspiciousMicroCalcAt(t, k);
      var k2 := SpaceEnd(t, k + 10);
      assert forall m | k + 10 <= m < k2 :: IsSpace(t[m]);
    }
    assert forall m | i + 2 <= m < k :: IsSpace(t[m]);
  }

  /** Every negation match contains "calcifications". */
  lemma NegatedHasCalcifications(t: string)
    requires Negated(t)
    ensures Occurs(t, "calcifications")
  {
    var i :| 0 <= i < |t| && NegationAt(t, i);
    NegationAtHasCalcifications(t, i);
  }

  lemma NegationAtHasCalcifications(t: string, i: int)
    requires NegationAt(t, i)
    ensures Occurs(t, "calcifications")
  {
    var k := SpaceEnd(t, i + 2);
    if OccursAt(t, "calcifications", k) {
      OccursAtOccurs(t, "calcifications", k);
    } else if MicroCalcAt(t, k) {
      MicroCalcHasCalcifications(t, k);
    } else {
      assert SuspiciousMicroCalcAt(t, k);
      MicroCalcHasCalcifications(t, SpaceEnd(t, k + 10));
    }
  }

  lemma MicroCalcHasCalcifications(t: string, k: int)
    requires MicroCalcAt(t, k)
    ensures Occurs(t, "calcifications")
  {
    if OccursAt(t, "calcifications", k + 5) {
      OccursAtOccurs(t, "calcifications", k + 5);
    } else {
      OccursAtOccurs(t, "calcifications", k + 6);
    }
  }

  /** Only the normal form of a report matters: case, hyphens and underscores make no difference. */
  lemma ExtractSeesOnlyNormalForm(text: string)
    ensures Extract(Normalize(text)) == Extract(text)
  {
    NormalizeIdempotent(text);
  }

  /** "Upper-Outer" is read exactly like "upper outer". */
  lemma HyphenatedQuadrant()
    ensures Extract("Upper-Outer") == Extract("upper outer")
    ensures Extract("Upper-Outer").quadrant == Some("upper outer")
  {
    UpperOuterSpellings();
    UpperOuterIsFirstQuadrant();
  }

  lemma UpperOuterIsFirstQuadrant()
    ensures FirstSubstring(QUADS, "upper outer") == Some("upper outer")
  {
    assert OccursAt("upper outer", QUADS[0], 0);
  }

  /** Laterality: "left" when it stands as a word; otherwise "right" when that does; otherwise absent. */
  lemma LateralityRule(text: string)
    ensures var t := Normalize(text);
            var r := Extract(text).laterality;
            (r == Some("left") <==> OccursAsWord(t, "left")) &&
            (r == Some("right") <==> !OccursAsWord(t, "left") && OccursAsWord(t, "right")) &&
            (r.None? <==> !OccursAsWord(t, "left") && !OccursAsWord(t, "right"))
  {
    var t := Normalize(text);
    var rest := LATERALITIES[1..];
    assert rest == ["right"] && rest[1..] == [];
    assert FirstWord(rest, t) == if OccursAsWord(t, "right") then Some("right") else None;
    assert FirstWord(LATERALITIES, t) == if OccursAsWord(t, "left") then Some("left") else FirstWord(rest, t);
  }

  /** Quadrant: the first phrase of QUADS, in list order, that occurs; absent exactly when none does. */
  lemma QuadrantRule(text: string)
    ensures var t := Normalize(text);
            var r := Extract(text).quadrant;
            (r.None? <==> forall n | 0 <= n < |QUADS| :: !Occurs(t, QUADS[n])) &&
            (r.Some? ==> exists n | 0 <= n < |QUADS| ::
                           QUADS[n] == r.value && Occurs(t, QUADS[n]) &&
                           forall m | 0 <= m < n :: !Occurs(t, QUADS[m]))
  {
  }

  /** Size: absent exactly when the size pattern matches nowhere; otherwise the value of the leftmost match. */
  lemma SizeRule(text: string)
    ensures var t := Normalize(text);
            var r := Extract(text).sizeMm;
            (r.None? <==> forall i | 0 <= i < |t| :: !SizeMatchAt(t, i)) &&
            (r.Some? ==> exists i | 0 <= i < |t| ::
                           SizeMatchAt(t, i) && r.value == SizeValueAt(t, i) &&
                           forall j | 0 <= j < i :: !SizeMatchAt(t, j))
  {
    SizeFromIsLeftmost(Normalize(text), 0);
  }

  /** A report without "mm" has no size. */
  lemma NoMillimetresNoSize(text: string)
    requires !Occurs(Normalize(text), "mm")
    ensures Extract(text).sizeMm.None?
  {
    SizeFromIsLeftmost(Normalize(text), 0);
  }

  /**
   * Microcalcifications: False when the negation pattern matches; otherwise,
   * when "calcifications" occurs, True exactly when "benign" does not occur;
   * absent exactly when "calcifications" does not occur.
   */
  lemma MicrocalcificationsRule(text: string)
    ensures var t := Normalize(text);
            var r := Extract(text).microcalcifications;
            (r.None? <==> !Occurs(t, "calcifications")) &&
            (Negated(t) ==> r == Some(false)) &&
            (!Negated(t) && Occurs(t, "calcifications") ==> r == Some(!Occurs(t, "benign")))
  {
    var t := Normalize(text);
    PresentIffCalcifications(t);
    if Negated(t) { NegatedHasCalcifications(t); }
  }

  /**
   * Finding: "no suspicious finding" whenever "no suspicious" or "birads 1"
   * occurs, whatever else does; otherwise "mass" when "mass", "lesion" or
   * "focus" occurs; otherwise absent.
   */
  lemma FindingRule(text: string)
    ensures var t := Normalize(text);
            var r := Extract(text).finding;
            var clear := Occurs(t, "no suspicious") || Occurs(t, "birads 1");
            var lesion := Occurs(t, "mass") || Occurs(t, "lesion") || Occurs(t, "focus");
            (clear ==> r == Some(NO_SUSPICIOUS_FINDING)) &&
            (r == Some(MASS) <==> !clear && lesion) &&
            (r.None? <==> !clear && !lesion)
  {
  }

  // ---------------------------------------------------------------------
  // Worked examples
  // ---------------------------------------------------------------------

  /** "left" as a word wins over "right". */
  lemma LeftWinsOverRight()
    ensures Extract("Left and right").laterality == Some("left")
  {
    var t := "left and right";
    LeftAndRightChars();
    NormalizesTo("Left and right", t);
    LeftAndRightWord();
    assert Boundary(t, 0) && Boundary(t, 4);
    assert WordAt(t, "left", 0);
    assert FirstWord(LATERALITIES, t) == Some("left");
  }

  lemma LeftAndRightChars()
    ensures forall i | 0 <= i < 14 :: NormalChar("Left and right"[i]) == "left and right"[i]
  {
  }

  lemma LeftAndRightWord()
    ensures OccursAt("left and right", "left", 0)
    ensures IsWordChar("left and right"[0]) && IsWordChar("left and right"[3]) && !IsWordChar("left and right"[4])
  {
  }

  /** "leftward" is not the word "left", and has no laterality. */
  lemma LeftwardIsNotLeft()
    ensures Extract("leftward").laterality == None
  {
    LeftwardChars();
    NormalizesTo("leftward", "leftward");
    LeftwardHasNoLaterality();
  }

  lemma LeftwardHasNoLaterality()
    ensures !OccursAsWord("leftward", "left") && !OccursAsWord("leftward", "right")
  {
    var u := "leftward";
    LeftwardChars();
    assert !WordAt(u, "left", 0);
  }

  lemma LeftwardChars()
    ensures forall i | 0 <= i < 8 :: NormalChar("leftward"[i]) == "leftward"[i]
    ensures IsWordChar("leftward"[3]) && IsWordChar("leftward"[4])
    ensures forall i | 1 <= i <= 4 :: !OccursAt("leftward", "left", i)
    ensures forall i | 0 <= i <= 3 :: !OccursAt("leftward", "right", i)
  {
    var u := "leftward";
    forall i | 1 <= i <= 4 ensures !OccursAt(u, "left", i) { assert u[i] != 'l'; }
    forall i | 0 <= i <= 3 ensures !OccursAt(u, "right", i) { assert u[i] != 'r'; }
  }

  /** What a fragment `m` says at offset `k` it still says inside `a + m + b`. */
  lemma InContext(a: string, m: string, b: string, k: int)
    requires 0 <= k < |m|
    ensures (a + m + b)[|a| + k] == m[k]
  {
  }

  lemma OccursInContext(a: string, m: string, b: string, p: string, i: int)
    requires OccursAt(m, p, i)
    ensures OccursAt(a + m + b, p, |a| + i)
  {
    var t := a + m + b;
    assert forall k | |a| + i <= k < |a| + i + |p| :: t[k] == m[k - |a|];
    assert t[|a| + i..|a| + i + |p|] == m[i..i + |p|];
  }

  /** The fragment below, as normalisation leaves it. */
  const NO_SUSPICIOUS_MICRO: string := "no suspicious microcalcifications"

  lemma NoSuspiciousMicroFacts()
    ensures var m := NO_SUSPICIOUS_MICRO;
      OccursAt(m, "no suspicious", 0) && OccursAt(m, "no", 0) && OccursAt(m, "suspicious", 3) &&
      OccursAt(m, "micro", 14) && OccursAt(m, "calcifications", 19) &&
      IsSpace(m[2]) && !IsSpace(m[3]) && IsSpace(m[13]) && !IsSpace(m[14])
  {
  }

  lemma NoSuspiciousMicroNormal()
    ensures Normalize("No suspicious microcalcifications") == NO_SUSPICIOUS_MICRO
  {
    NoSuspiciousMicroSplit();
    NoSuspiciousMicroNormalSplit();
    NoSuspiciousNormal();
    MicrocalcificationsNormal();
    NormalizeSplit("No suspicious microcalcifications", "No suspicious", " microcalcifications",
                   "no suspicious", " microcalcifications", NO_SUSPICIOUS_MICRO);
  }

  lemma NoSuspiciousMicroSplit()
    ensures "No suspicious microcalcifications" == "No suspicious" + " microcalcifications"
  {
  }

  lemma NoSuspiciousMicroNormalSplit()
    ensures NO_SUSPICIOUS_MICRO == "no suspicious" + " microcalcifications"
  {
  }

  lemma NoSuspiciousNormal()
    ensures Normalize("No suspicious") == "no suspicious"
  {
    assert forall i | 0 <= i < 13 :: NormalChar("No suspicious"[i]) == "no suspicious"[i];
    NormalizesTo("No suspicious", "no suspicious");
  }

  lemma MicrocalcificationsNormal()
    ensures Normalize(" microcalcifications") == " microcalcifications"
  {
    assert forall i | 0 <= i < 20 :: NormalChar(" microcalcifications"[i]) == " microcalcifications"[i];
    NormalizesTo(" microcalcifications", " microcalcifications");
  }

  /**
   * Wherever a report says "No suspicious microcalcifications", the finding is
   * "no suspicious finding" and microcalcifications is False, whatever else the
   * report says: "Irregular mass measuring 14 mm. No suspicious
   * microcalcifications." mentions a mass, and is still read as "no suspicious
   * finding".
   */
  lemma NoSuspiciousMicrocalcificationsSentence(before: string, after: string)
    ensures var r := Extract(before + "No suspicious microcalcifications" + after);
      r.finding == Some(NO_SUSPICIOUS_FINDING) && r.microcalcifications == Some(false)
  {
    var a, b := Normalize(before), Normalize(after);
    NoSuspiciousMicroNormal();
    NormalizeConcat(before + "No suspicious microcalcifications", after);
    NormalizeConcat(before, "No suspicious microcalcifications");
    var t := a + NO_SUSPICIOUS_MICRO + b;
    assert Normalize(before + "No suspicious microcalcifications" + after) == t;
    NegationInContext(a, b);
  }

  /** The fragment, inside any normalised context, matches both the negation and "no suspicious". */
  lemma NegationInContext(a: string, b: string)
    ensures NegationAt(a + NO_SUSPICIOUS_MICRO + b, |a|)
    ensures Occurs(a + NO_SUSPICIOUS_MICRO + b, "no suspicious")
  {
    var m := NO_SUSPICIOUS_MICRO;
    var t := a + m + b;
    NoSuspiciousMicroFacts();
    OccursInContext(a, m, b, "no suspicious", 0);
    OccursInContext(a, m, b, "no", 0);
    OccursInContext(a, m, b, "suspicious", 3);
    OccursInContext(a, m, b, "micro", 14);
    OccursInContext(a, m, b, "calcifications", 19);
    InContext(a, m, b, 2);
    InContext(a, m, b, 3);
    InContext(a, m, b, 13);
    InContext(a, m, b, 14);
    var i := |a|;
    assert SpaceEnd(t, i + 2) == i + 3;
    assert SpaceEnd(t, i + 13) == i + 14;
    assert MicroCalcAt(t, i + 14);
  }
}
