/** Python's white space and `str.strip`, which decide what counts as a given text. */
module Texts {

  /** The characters for which `str.isspace` holds. */
  predicate IsSpace(c: char) {
    || '\t' <= c <= '\r' || '\U{1C}' <= c <= ' ' || c == '\U{85}' || c == '\U{A0}' || c == '\U{1680}'
    || '\U{2000}' <= c <= '\U{200A}' || c == '\U{2028}' || c == '\U{2029}' || c == '\U{202F}' || c == '\U{205F}'
    || c == '\U{3000}'
  }

  function StripLeft(s: string): string {
    if s != "" && IsSpace(s[0]) then StripLeft(s[1..]) else s
  }

  function StripRight(s: string): string {
    if s != "" && IsSpace(s[|s| - 1]) then StripRight(s[..|s| - 1]) else s
  }

  /** `s.strip()` */
  function Strip(s: string): string {
    StripRight(StripLeft(s))
  }

  /** No white space at either end. */
  predicate Stripped(s: string) {
    s != "" ==> !IsSpace(s[0]) && !IsSpace(s[|s| - 1])
  }

  lemma {:induction false} StripLeftEnds(s: string)
    ensures var r := StripLeft(s); r != "" ==> !IsSpace(r[0])
    ensures |StripLeft(s)| <= |s|
    ensures s != "" && IsSpace(s[0]) ==> |StripLeft(s)| < |s|
  {
    hide IsSpace;
    if s != "" && IsSpace(s[0]) { StripLeftEnds(s[1..]); }
  }

  lemma {:induction false} StripRightEnds(s: string)
    ensures var r := StripRight(s); r <= s && (r != "" ==> !IsSpace(r[|r| - 1]))
    ensures s != "" && IsSpace(s[|s| - 1]) ==> |StripRight(s)| < |s|
  {
    hide IsSpace;
    if s != "" && IsSpace(s[|s| - 1]) { StripRightEnds(s[..|s| - 1]); }
  }

  /** Stripping leaves a text alone exactly when it has no white space at its ends, and what it
      returns never has any. */
  lemma StripMeans(s: string)
    ensures Strip(s) == s <==> Stripped(s)
    ensures Stripped(Strip(s))
    ensures |Strip(s)| <= |s|
  {
    hide IsSpace;
    StripLeftEnds(s);
    StripRightEnds(StripLeft(s));
  }

  /** What `_required_text` leaves: a non-empty text without white space at its ends. */
  predicate RequiredText(s: string) {
    s != "" && Stripped(s)
  }

  /** A separator that neither first part contains splits a text in one way only. */
  lemma FirstPartEqual(separator: char, a: string, b: string, s: string, t: string)
    requires separator !in a && separator !in b
    requires a + [separator] + s == b + [separator] + t
    ensures a == b && s == t
  {
    var u := a + [separator] + s;
    assert u[|a|] == separator && u[|b|] == separator;
    assert forall i :: 0 <= i < |a| ==> u[i] == a[i] && u[i] != separator;
    assert forall i :: 0 <= i < |b| ==> u[i] == b[i] && u[i] != separator;
    assert |a| == |b|;
    assert a == u[..|a|] && b == u[..|b|] && s == u[|a| + 1..] && t == u[|b| + 1..];
  }
}
