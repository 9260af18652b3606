/**
 The string rules the catalogue relies on, as the Java libraries apply them:
 - Spring's StringUtils.hasText (used by the service before saving),
 - Bean Validation's @NotBlank (declared on the Melody fields), which trims
   every character at or below U+0020,
 - @Size, which counts UTF-16 code units,
 - String.equalsIgnoreCase (used when free text is resolved to an enum member).
 */
module Text {
  import opened Wrappers

  /** Character.isWhitespace as of Java 9: the Unicode space, line and paragraph
      separators except the three no-break spaces, plus the ASCII controls
      0x09-0x0D and 0x1C-0x1F. (Java 8 also counts U+180E, which later Unicode
      versions no longer class as a space.) */
  predicate IsJavaWhitespace(c: char) {
    || c == ' '
    || ('\t' <= c <= '\r')
    || ('\U{1C}' <= c <= '\U{1F}')
    || c == '\U{1680}'
    || ('\U{2000}' <= c <= '\U{2006}')
    || ('\U{2008}' <= c <= '\U{200A}')
    || c == '\U{2028}' || c == '\U{2029}' || c == '\U{205F}' || c == '\U{3000}'
  }

  /** StringUtils.hasText: not null and holding a character that is not whitespace. */
  predicate HasText(s: Option<string>)
    ensures HasText(s) ==> s.Some? && |s.value| >= 1
    ensures s.Some? && (forall i :: 0 <= i < |s.value| ==> IsJavaWhitespace(s.value[i])) ==> !HasText(s)
  {
    s.Some? && exists i :: 0 <= i < |s.value| && !IsJavaWhitespace(s.value[i])
  }

  /** @NotBlank: not null and non-empty after String.trim, which strips every
      character at or below U+0020 from both ends. */
  predicate NotBlank(s: Option<string>) {
    s.Some? && exists i :: 0 <= i < |s.value| && s.value[i] > ' '
  }

  /** String.length(): characters beyond the Basic Multilingual Plane take two
      UTF-16 code units. */
  function Utf16Length(s: string): (n: nat)
    ensures |s| <= n <= 2 * |s|
    ensures (forall i :: 0 <= i < |s| ==> s[i] <= '\U{FFFF}') ==> n == |s|
  {
    if s == [] then 0
    else (if s[0] <= '\U{FFFF}' then 1 else 2) + Utf16Length(s[1..])
  }

  /** The two blank rules agree on text made of printable ASCII, tabs and line breaks. */
  lemma BlankRulesAgreeOnPlainText(s: string)
    requires forall i :: 0 <= i < |s| ==> (' ' <= s[i] <= '~' || '\t' <= s[i] <= '\r')
    ensures HasText(Some(s)) <==> NotBlank(Some(s))
  {
    if HasText(Some(s)) {
      var i :| 0 <= i < |s| && !IsJavaWhitespace(s[i]);
      assert s[i] > ' ';
    }
    if NotBlank(Some(s)) {
      var i :| 0 <= i < |s| && s[i] > ' ';
      assert !IsJavaWhitespace(s[i]);
    }
  }

  /** Outside plain text they disagree in both directions: U+2000 survives trim
      but is whitespace, and U+0000 is trimmed but is not whitespace. */
  lemma BlankRulesDisagree()
    ensures NotBlank(Some("\U{2000}\U{2000}\U{2000}")) && !HasText(Some("\U{2000}\U{2000}\U{2000}"))
    ensures HasText(Some("\U{0}\U{0}\U{0}")) && !NotBlank(Some("\U{0}\U{0}\U{0}"))
  {
    var w := "\U{2000}\U{2000}\U{2000}";
    assert w[0] > ' ';
    var z := "\U{0}\U{0}\U{0}";
    assert !IsJavaWhitespace(z[0]);
  }

  /** Character.toUpperCase, on the characters that can fold onto an ASCII
      letter: a-z, dotless i (U+0131) and long s (U+017F). */
  function UpperChar(c: char): char {
    if 'a' <= c <= 'z' then (c as int - 32) as char
    else if c == '\U{131}' then 'I'
    else if c == '\U{17F}' then 'S'
    else c
  }

  /** Character.toLowerCase, on the characters that can fold onto an ASCII
      letter: A-Z, dotted capital I (U+0130) and the Kelvin sign (U+212A). */
  function LowerChar(c: char): char {
    if 'A' <= c <= 'Z' then (c as int + 32) as char
    else if c == '\U{130}' then 'i'
    else if c == '\U{212A}' then 'k'
    else c
  }

  /** The per-character test of String.regionMatches(ignoreCase = true). */
  predicate CharEqualsIgnoreCase(a: char, b: char) {
    a == b || UpperChar(a) == UpperChar(b) || LowerChar(UpperChar(a)) == LowerChar(UpperChar(b))
  }

  /** String.equalsIgnoreCase. */
  predicate EqualsIgnoreCase(a: string, b: string) {
    |a| == |b| && forall i :: 0 <= i < |a| ==> CharEqualsIgnoreCase(a[i], b[i])
  }

  /** The case-folded form of a string: what equalsIgnoreCase compares. */
  function Fold(s: string): (r: string)
    ensures |r| == |s|
  {
    seq(|s|, i requires 0 <= i < |s| => LowerChar(UpperChar(s[i])))
  }

  lemma EqualsIgnoreCaseIffSameFold(a: string, b: string)
    ensures EqualsIgnoreCase(a, b) <==> Fold(a) == Fold(b)
  {
    if Fold(a) == Fold(b) {
      forall i | 0 <= i < |a|
        ensures CharEqualsIgnoreCase(a[i], b[i])
      {
        assert Fold(a)[i] == Fold(b)[i];
      }
    }
    if EqualsIgnoreCase(a, b) {
      assert forall i :: 0 <= i < |a| ==> Fold(a)[i] == Fold(b)[i];
    }
  }

  /** equalsIgnoreCase is an equivalence: it is decided by the folded forms. */
  lemma EqualsIgnoreCaseTransitive(a: string, b: string, c: string)
    requires EqualsIgnoreCase(a, b) && EqualsIgnoreCase(b, c)
    ensures EqualsIgnoreCase(a, c)
  {
    EqualsIgnoreCaseIffSameFold(a, b);
    EqualsIgnoreCaseIffSameFold(b, c);
    EqualsIgnoreCaseIffSameFold(a, c);
  }
}
