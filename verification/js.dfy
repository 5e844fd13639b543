/** The few pieces of JavaScript value semantics the speech session relies on:
    optional values, truthiness of strings, `a || b` defaults and
    `String.prototype.trim` (ECMA-262, the WhiteSpace and LineTerminator
    productions of section 12). */
module Js {

  /** A value that may be absent (`undefined` or `null` in the component). */
  datatype Option<T> = None | Some(value: T) {

    /** `x || default` for a value that is truthy whenever present (objects, arrays). */
    function GetOr(default: T): T {
      if Some? then value else default
    }
  }

  /** A possibly-absent string is truthy when present and non-empty. */
  predicate Truthy(o: Option<string>) {
    o.Some? && o.value != ""
  }

  /** `o || default` for a possibly-absent string. */
  function Or(o: Option<string>, default: string): string {
    if Truthy(o) then o.value else default
  }

  /** The characters `trim` strips: WhiteSpace and LineTerminator code points. */
  predicate IsWhitespace(c: char) {
    || c == '\t' || c == '\n' || c == '\U{000B}' || c == '\U{000C}' || c == '\r'
    || c == ' ' || c == '\U{00A0}' || c == '\U{1680}'
    || ('\U{2000}' <= c <= '\U{200A}')
    || c == '\U{2028}' || c == '\U{2029}' || c == '\U{202F}' || c == '\U{205F}'
    || c == '\U{3000}' || c == '\U{FEFF}'
  }

  /** Every character of `s` in the index range `[lo, hi)` is whitespace. */
  predicate WhitespaceBetween(s: string, lo: int, hi: int)
    requires 0 <= lo <= hi <= |s|
  {
    forall k | lo <= k < hi :: IsWhitespace(s[k])
  }

  predicate AllWhitespace(s: string) {
    WhitespaceBetween(s, 0, |s|)
  }

  /** The index of the first character of `s` that is not whitespace, or `|s|`. */
  function TrimStartIndex(s: string, lo: nat): (i: nat)
    requires lo <= |s|
    ensures lo <= i <= |s|
    ensures WhitespaceBetween(s, lo, i)
    ensures i == |s| || !IsWhitespace(s[i])
    decreases |s| - lo
  {
    if lo < |s| && IsWhitespace(s[lo]) then TrimStartIndex(s, lo + 1) else lo
  }

  /** The index just past the last character of `s[lo..hi]` that is not
      whitespace, or `lo`. */
  function TrimEndIndex(s: string, lo: nat, hi: nat): (j: nat)
    requires lo <= hi <= |s|
    ensures lo <= j <= hi
    ensures WhitespaceBetween(s, j, hi)
    ensures j == lo || !IsWhitespace(s[j - 1])
    decreases hi
  {
    if lo < hi && IsWhitespace(s[hi - 1]) then TrimEndIndex(s, lo, hi - 1) else hi
  }

  /** `r` is the slice `s[i..j]` and only whitespace lies outside it. */
  ghost predicate SliceAmidWhitespace(r: string, s: string, i: int, j: int) {
    0 <= i <= j <= |s| && r == s[i..j] && WhitespaceBetween(s, 0, i) && WhitespaceBetween(s, j, |s|)
  }

  /** `r` is `s` with its leading and trailing whitespace removed: a slice of
      `s` with only whitespace around it, and with no whitespace at its ends. */
  ghost predicate IsTrimOf(r: string, s: string) {
    && (exists i, j :: SliceAmidWhitespace(r, s, i, j))
    && (r == "" || (!IsWhitespace(r[0]) && !IsWhitespace(r[|r| - 1])))
  }

  /** `s.trim()`. */
  function Trim(s: string): (r: string)
    ensures IsTrimOf(r, s)
    ensures r == "" <==> AllWhitespace(s)
  {
    var i := TrimStartIndex(s, 0);
    var j := TrimEndIndex(s, i, |s|);
    assert SliceAmidWhitespace(s[i..j], s, i, j);
    assert i < j ==> s[i..j][0] == s[i];
    s[i..j]
  }

  lemma TrimUnique(r: string, s: string)
    requires IsTrimOf(r, s)
    ensures r == Trim(s)
  {
    var t := Trim(s);
    var i, j :| SliceAmidWhitespace(r, s, i, j);
    var i', j' :| SliceAmidWhitespace(t, s, i', j');
    if r == "" {
      assert WhitespaceBetween(s, 0, |s|);
    } else if t != "" {
      assert r[0] == s[i] && t[0] == s[i'];
      assert r[|r| - 1] == s[j - 1] && t[|t| - 1] == s[j' - 1];
    }
  }

  /** Trimming twice is trimming once. */
  lemma TrimIdempotent(s: string)
    ensures Trim(Trim(s)) == Trim(s)
  {
    var t := Trim(s);
    assert SliceAmidWhitespace(t, t, 0, |t|);
    TrimUnique(t, t);
  }
}
