/**
 * Character classes, the normalisation a report goes through before any rule
 * is applied, and the two basic searches the extractor's rules are built from:
 * substring search and whole-word search (a word between two `\b` boundaries).
 */
module Text {

  // ---------------------------------------------------------------------
  // Character classes
  // ---------------------------------------------------------------------

  predicate IsUpper(c: char) { 'A' <= c <= 'Z' }

  predicate IsLetter(c: char) { 'a' <= c <= 'z' || 'A' <= c <= 'Z' }

  /** `\d`, restricted to the ASCII digits. */
  predicate IsDigit(c: char) { '0' <= c <= '9' }

  /** `\w`: letters, digits and the underscore. */
  predicate IsWordChar(c: char) { IsLetter(c) || IsDigit(c) || c == '_' }

  /** `\s` on a `str` pattern: the characters Python's `str.isspace` accepts. */
  predicate IsSpace(c: char) {
    c == ' ' || '\t' <= c <= '\r' || '\U{1C}' <= c <= '\U{1F}' ||
    c == '\U{85}' || c == '\U{A0}' || c == '\U{1680}' || '\U{2000}' <= c <= '\U{200A}' ||
    c == '\U{2028}' || c == '\U{2029}' || c == '\U{202F}' || c == '\U{205F}' || c == '\U{3000}'
  }

  /** `str.lower` on one character, for the ASCII letters. */
  function ToLower(c: char): (r: char)
    ensures IsUpper(c) ==> r as int == c as int + 32
    ensures !IsUpper(c) ==> r == c
    ensures !IsUpper(r)
  {
    if IsUpper(c) then (c as int + 32) as char else c
  }

  // ---------------------------------------------------------------------
  // Normalisation: lower case, then hyphens and underscores become spaces
  // ---------------------------------------------------------------------

  /** `s.lower()`: every character lowered, nothing else changed. */
  function Lower(s: string): (r: string)
    ensures |r| == |s|
    ensures forall i | 0 <= i < |s| :: r[i] == ToLower(s[i])
  {
    if s == [] then [] else [ToLower(s[0])] + Lower(s[1..])
  }

  /** `s.replace(a, b)` for one-character strings `a` and `b`: every `a` becomes `b`. */
  function Replace(s: string, a: char, b: char): (r: string)
    ensures |r| == |s|
    ensures forall i | 0 <= i < |s| :: r[i] == if s[i] == a then b else s[i]
  {
    if s == [] then [] else [if s[0] == a then b else s[0]] + Replace(s[1..], a, b)
  }

  /** What one character of the report becomes after normalisation. */
  function NormalChar(c: char): char {
    if c == '-' || c == '_' then ' ' else ToLower(c)
  }

  /**
   * The normalised report every rule reads: lower case, with hyphens and
   * underscores turned into spaces, character by character.
   */
  function Normalize(text: string): (t: string)
    ensures |t| == |text|
    ensures forall i | 0 <= i < |text| :: t[i] == NormalChar(text[i])
    ensures forall i | 0 <= i < |t| :: !IsUpper(t[i]) && t[i] != '-' && t[i] != '_'
  {
    Replace(Replace(Lower(text), '-', ' '), '_', ' ')
  }

  /** Normalising twice is normalising once. */
  lemma NormalizeIdempotent(text: string)
    ensures Normalize(Normalize(text)) == Normalize(text)
  {
    var t := Normalize(text);
    assert forall i | 0 <= i < |t| :: Normalize(t)[i] == t[i];
  }

  /** Normalisation works character by character, so it distributes over concatenation. */
  lemma NormalizeConcat(a: string, b: string)
    ensures Normalize(a + b) == Normalize(a) + Normalize(b)
  {
    var ab := a + b;
    assert forall i | 0 <= i < |a| :: ab[i] == a[i];
    assert forall i | |a| <= i < |ab| :: ab[i] == b[i - |a|];
  }

  /** The normal form of a text is the normal forms of its pieces, put together. */
  lemma NormalizeSplit(s: string, s1: string, s2: string, t1: string, t2: string, t: string)
    requires s == s1 + s2 && Normalize(s1) == t1 && Normalize(s2) == t2 && t == t1 + t2
    ensures Normalize(s) == t
  {
    NormalizeConcat(s1, s2);
  }

  /** Case and the choice between hyphen, underscore and space do not survive normalisation. */
  lemma UpperOuterSpellings()
    ensures Normalize("Upper-Outer") == Normalize("UPPER_OUTER") == Normalize("upper outer") == "upper outer"
  {
    UpperOuterChars();
    NormalizesTo("Upper-Outer", "upper outer");
    NormalizesTo("UPPER_OUTER", "upper outer");
    NormalizesTo("upper outer", "upper outer");
  }

  lemma UpperOuterChars()
    ensures forall i | 0 <= i < 11 :: NormalChar("Upper-Outer"[i]) == "upper outer"[i]
    ensures forall i | 0 <= i < 11 :: NormalChar("UPPER_OUTER"[i]) == "upper outer"[i]
    ensures forall i | 0 <= i < 11 :: NormalChar("upper outer"[i]) == "upper outer"[i]
  {
  }

  /** `t` is the normal form of `text` when it agrees with it character by character. */
  lemma NormalizesTo(text: string, t: string)
    requires |text| == |t| && forall i | 0 <= i < |t| :: NormalChar(text[i]) == t[i]
    ensures Normalize(text) == t
  {
  }

  // ---------------------------------------------------------------------
  // Substring search: `p in t`
  // ---------------------------------------------------------------------

  predicate OccursAt(t: string, p: string, i: int) {
    0 <= i && i + |p| <= |t| && t[i..i + |p|] == p
  }

  predicate Occurs(t: string, p: string) {
    exists i | 0 <= i <= |t| - |p| :: OccursAt(t, p, i)
  }

  lemma OccursAtOccurs(t: string, p: string, i: int)
    requires OccursAt(t, p, i)
    ensures Occurs(t, p)
  {
  }

  /** An occurrence of `p` at `i` begins with the first character of `p`. */
  lemma OccursAtFirst(t: string, p: string, i: int)
    requires OccursAt(t, p, i) && |p| > 0
    ensures i < |t| && t[i] == p[0]
  {
    assert t[i..i + |p|][0] == t[i];
  }

  /** Left-to-right search for `p` in `t`. */
  method Contains(t: string, p: string) returns (found: bool)
    ensures found <==> Occurs(t, p)
  {
    var i := 0;
    while i + |p| <= |t|
      invariant 0 <= i <= |t| + 1
      invariant forall j | 0 <= j < i :: !OccursAt(t, p, j)
    {
      if t[i..i + |p|] == p {
        assert OccursAt(t, p, i);
        return true;
      }
      i := i + 1;
    }
    found := false;
  }

  // ---------------------------------------------------------------------
  // Whole-word search: a word with a `\b` boundary on either side
  // ---------------------------------------------------------------------

  /** `\b` at position `i`: a word character on exactly one side of `i`. */
  predicate Boundary(t: string, i: int)
    requires 0 <= i <= |t|
  {
    (0 < i && IsWordChar(t[i - 1])) != (i < |t| && IsWordChar(t[i]))
  }

  /** `\bw\b` matches at position `i`. */
  predicate WordAt(t: string, w: string, i: int) {
    OccursAt(t, w, i) && Boundary(t, i) && Boundary(t, i + |w|)
  }

  predicate OccursAsWord(t: string, w: string) {
    exists i | 0 <= i <= |t| - |w| :: WordAt(t, w, i)
  }

  /** Left-to-right search for `w` standing as a whole word in `t`. */
  method ContainsWord(t: string, w: string) returns (found: bool)
    ensures found <==> OccursAsWord(t, w)
  {
    var i := 0;
    while i + |w| <= |t|
      invariant 0 <= i <= |t| + 1
      invariant forall j | 0 <= j < i :: !WordAt(t, w, j)
    {
      if t[i..i + |w|] == w && Boundary(t, i) && Boundary(t, i + |w|) {
        assert WordAt(t, w, i);
        return true;
      }
      i := i + 1;
    }
    found := false;
  }

  /** A word occurrence needs a non-word character (or an end of the text) on both sides. */
  lemma WordNeedsBoundaries(t: string, w: string, i: int)
    requires OccursAt(t, w, i) && |w| > 0 && IsWordChar(w[0]) && IsWordChar(w[|w| - 1])
    ensures WordAt(t, w, i) <==>
              (i == 0 || !IsWordChar(t[i - 1])) && (i + |w| == |t| || !IsWordChar(t[i + |w|]))
  {
    assert t[i] == w[0] && t[i + |w| - 1] == w[|w| - 1];
  }

  // ---------------------------------------------------------------------
  // Runs of digits and of whitespace (the greedy `\d+` and `\s*`)
  // ---------------------------------------------------------------------

  /** The end of the run of digits that starts at `i` (`i` itself when there is none). */
  function DigitEnd(t: string, i: int): (j: int)
    requires 0 <= i <= |t|
    ensures i <= j <= |t|
    ensures forall k | i <= k < j :: IsDigit(t[k])
    ensures j == |t| || !IsDigit(t[j])
    decreases |t| - i
  {
    if i < |t| && IsDigit(t[i]) then DigitEnd(t, i + 1) else i
  }

  /** The end of the run of whitespace that starts at `i` (`i` itself when there is none). */
  function SpaceEnd(t: string, i: int): (j: int)
    requires 0 <= i <= |t|
    ensures i <= j <= |t|
    ensures forall k | i <= k < j :: IsSpace(t[k])
    ensures j == |t| || !IsSpace(t[j])
    decreases |t| - i
  {
    if i < |t| && IsSpace(t[i]) then SpaceEnd(t, i + 1) else i
  }

  /**
   * A run of digits (or of whitespace) that is followed by a character outside
   * the class ends exactly where DigitEnd (SpaceEnd) says: this is why a greedy
   * `\d+` or `\s*`/`\s+` followed by a fixed non-digit, non-space literal has
   * only one way to match.
   */
  lemma {:induction false} DigitRunIsMaximal(t: string, i: int, j: int)
    requires 0 <= i <= j <= |t|
    requires forall k | i <= k < j :: IsDigit(t[k])
    requires j == |t| || !IsDigit(t[j])
    ensures j == DigitEnd(t, i)
    decreases j - i
  {
    if i < j { DigitRunIsMaximal(t, i + 1, j); }
  }

  lemma {:induction false} SpaceRunIsMaximal(t: string, i: int, j: int)
    requires 0 <= i <= j <= |t|
    requires forall k | i <= k < j :: IsSpace(t[k])
    requires j == |t| || !IsSpace(t[j])
    ensures j == SpaceEnd(t, i)
    decreases j - i
  {
    if i < j { SpaceRunIsMaximal(t, i + 1, j); }
  }

  // ---------------------------------------------------------------------
  // Decimal numerals: float() of "digits" or "digits.digits"
  // ---------------------------------------------------------------------

  function DigitValue(c: char): nat
    requires IsDigit(c)
  {
    c as int - '0' as int
  }

  /** The value of a string of decimal digits, most significant first. */
  function NatValue(s: string): (n: nat)
    requires forall k | 0 <= k < |s| :: IsDigit(s[k])
    ensures |s| == 1 ==> n == DigitValue(s[0])
    decreases |s|
  {
    if s == [] then 0 else NatValue(s[..|s| - 1]) * 10 + DigitValue(s[|s| - 1])
  }

  function Pow10(n: nat): (p: nat)
    ensures p >= 1
  {
    if n == 0 then 1 else 10 * Pow10(n - 1)
  }

  /** The exact value of the numeral `whole` "." `frac` (no fraction when `frac` is empty). */
  function DecimalValue(whole: string, frac: string): (v: real)
    requires forall k | 0 <= k < |whole| :: IsDigit(whole[k])
    requires forall k | 0 <= k < |frac| :: IsDigit(frac[k])
    ensures v >= 0.0
    ensures frac == [] ==> v == NatValue(whole) as real
  {
    NatValue(whole) as real + NatValue(frac) as real / Pow10(|frac|) as real
  }
}
