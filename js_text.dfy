/**
 * The JavaScript string operations the webhook handler relies on:
 * `trim`, `toLowerCase`, `includes` and `split(sep)[0]`.
 */
module JsText {

  /** The characters `String.prototype.trim` removes: ECMAScript WhiteSpace and LineTerminator. */
  predicate IsWhitespace(c: char) {
    c == '\t' || c == '\n' || c == '\U{000B}' || c == '\U{000C}' || c == '\r' || c == ' '
    || c == '\U{00A0}' || c == '\U{1680}' || ('\U{2000}' <= c <= '\U{200A}')
    || c == '\U{2028}' || c == '\U{2029}' || c == '\U{202F}' || c == '\U{205F}'
    || c == '\U{3000}' || c == '\U{FEFF}'
  }

  /** Neither end of s is whitespace. */
  predicate IsTrimmed(s: string) {
    s == [] || (!IsWhitespace(s[0]) && !IsWhitespace(s[|s| - 1]))
  }

  /** s with its leading whitespace removed. */
  function TrimStart(s: string): (r: string)
    ensures |r| <= |s| && r == s[|s| - |r|..]
    ensures r == [] || !IsWhitespace(r[0])
    ensures forall i :: 0 <= i < |s| - |r| ==> IsWhitespace(s[i])
  {
    if s != [] && IsWhitespace(s[0]) then TrimStart(s[1..]) else s
  }

  /** s with its trailing whitespace removed. */
  function TrimEnd(s: string): (r: string)
    ensures |r| <= |s| && r == s[..|r|]
    ensures r == [] || !IsWhitespace(r[|r| - 1])
    ensures forall i :: |r| <= i < |s| ==> IsWhitespace(s[i])
  {
    if s != [] && IsWhitespace(s[|s| - 1]) then TrimEnd(s[..|s| - 1]) else s
  }

  /** Every character of t is whitespace. */
  predicate AllWhitespace(t: string) {
    forall k :: 0 <= k < |t| ==> IsWhitespace(t[k])
  }

  /** r is the stretch of s starting at i, with only whitespace before and after it. */
  predicate StretchAt(s: string, r: string, i: int) {
    0 <= i <= |s| - |r| && s[i..i + |r|] == r && AllWhitespace(s[..i]) && AllWhitespace(s[i + |r|..])
  }

  /** r is s with some whitespace removed from its start and its end. */
  predicate IsStretchOf(s: string, r: string) {
    exists i :: 0 <= i <= |s| && StretchAt(s, r, i)
  }

  /** `s.trim()`: the stretch of s left once whitespace is removed from both ends. */
  function Trim(s: string): (r: string)
    ensures IsTrimmed(r) && |r| <= |s|
    ensures IsStretchOf(s, r)
    ensures r == [] <==> AllWhitespace(s)
  {
    TrimIsStretch(s);
    var t := TrimStart(s);
    var r := TrimEnd(t);
    assert r != [] ==> r[0] == t[0];
    r
  }

  /** Trimming keeps the stretch of s between its leading and trailing whitespace. */
  lemma TrimIsStretch(s: string)
    ensures StretchAt(s, TrimEnd(TrimStart(s)), |s| - |TrimStart(s)|)
  {
    LeadingWhitespace(s);
    TrailingWhitespace(TrimStart(s));
    StretchOfParts(s, TrimStart(s), TrimEnd(TrimStart(s)), |s| - |TrimStart(s)|);
  }

  /** What TrimStart drops is whitespace. */
  lemma LeadingWhitespace(s: string)
    ensures AllWhitespace(s[..|s| - |TrimStart(s)|])
  {
    var i := |s| - |TrimStart(s)|;
    forall k | 0 <= k < i ensures IsWhitespace(s[..i][k]) {
      assert s[..i][k] == s[k];
    }
  }

  /** What TrimEnd drops is whitespace. */
  lemma TrailingWhitespace(t: string)
    ensures AllWhitespace(t[|TrimEnd(t)|..])
  {
    var n := |TrimEnd(t)|;
    forall k | 0 <= k < |t| - n ensures IsWhitespace(t[n..][k]) {
      assert t[n..][k] == t[n + k];
    }
  }

  /** Whitespace, then t, in s; t is r followed by whitespace: r is a stretch of s. */
  lemma StretchOfParts(s: string, t: string, r: string, i: int)
    requires 0 <= i <= |s| && t == s[i..] && r <= t
    requires AllWhitespace(s[..i]) && AllWhitespace(t[|r|..])
    ensures StretchAt(s, r, i)
  {
    assert s[i..i + |r|] == t[..|r|] == r;
    assert s[i + |r|..] == t[|r|..];
  }

  predicate IsAsciiUpper(c: char) {
    'A' <= c <= 'Z'
  }

  function LowerChar(c: char): char {
    if IsAsciiUpper(c) then (c as int + 32) as char else c
  }

  /**
   * r is s lower-cased over the ASCII letters: same length, no upper-case
   * letter left, every upper-case letter replaced by its lower-case form 32
   * code points above, every other character kept.
   */
  predicate IsLowerCasing(s: string, r: string) {
    && |r| == |s|
    && (forall i :: 0 <= i < |s| ==> !IsAsciiUpper(r[i]))
    && (forall i :: 0 <= i < |s| && !IsAsciiUpper(s[i]) ==> r[i] == s[i])
    && (forall i :: 0 <= i < |s| && IsAsciiUpper(s[i]) ==> r[i] as int == s[i] as int + 32)
  }

  /** `s.toLowerCase()`, restricted to the ASCII letters. */
  function Lower(s: string): (r: string)
    ensures |r| == |s|
    ensures IsLowerCasing(s, r)
  {
    seq(|s|, i requires 0 <= i < |s| => LowerChar(s[i]))
  }

  /** sub occurs in s starting at index i. */
  predicate OccursAt(s: string, sub: string, i: int) {
    0 <= i && i + |sub| <= |s| && s[i..i + |sub|] == sub
  }

  /** `s.includes(sub)`. */
  function Contains(s: string, sub: string): (b: bool)
    ensures b <==> exists i :: OccursAt(s, sub, i)
  {
    if sub <= s then
      assert OccursAt(s, sub, 0);
      true
    else if s == [] then
      false
    else
      var rest := Contains(s[1..], sub);
      assert forall i :: OccursAt(s[1..], sub, i) <==> OccursAt(s, sub, i + 1);
      assert forall i :: OccursAt(s, sub, i) ==> i > 0 && OccursAt(s[1..], sub, i - 1);
      rest
  }

  /** `s.split(sep)[0]`: the text before the first sep, or all of s when there is none. */
  function FirstSegment(s: string, sep: char): (r: string)
    ensures r <= s && sep !in r
    ensures r == s || s[|r|] == sep
  {
    if s == [] || s[0] == sep then [] else [s[0]] + FirstSegment(s[1..], sep)
  }

  /** split(sep)[0] ends at the first sep. */
  lemma FirstSegmentAt(s: string, sep: char, i: nat)
    requires i < |s| && s[i] == sep && sep !in s[..i]
    ensures FirstSegment(s, sep) == s[..i]
  {
    var r := FirstSegment(s, sep);
    assert forall j :: 0 <= j < i ==> s[j] != sep by {
      forall j | 0 <= j < i ensures s[j] != sep { assert s[j] == s[..i][j]; }
    }
    assert forall j :: 0 <= j < |r| ==> r[j] == s[j] && r[j] != sep;
  }

  /** Lower-casing is idempotent and maps trimmed text to trimmed text. */
  lemma LowerKeepsShape(s: string)
    ensures Lower(Lower(s)) == Lower(s)
    ensures IsTrimmed(s) ==> IsTrimmed(Lower(s))
  {
  }

  /** Text without upper-case letters is its own lower-case form. */
  lemma LowerOfLowerCase(s: string)
    requires forall i :: 0 <= i < |s| ==> !IsAsciiUpper(s[i])
    ensures Lower(s) == s
  {
  }

  /** Trimming already-trimmed text changes nothing. */
  lemma {:induction false} TrimOfTrimmed(s: string)
    requires IsTrimmed(s)
    ensures Trim(s) == s
  {
    if s != [] {
      assert TrimStart(s) == s;
      assert TrimEnd(s) == s;
    }
  }
}
