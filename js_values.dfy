/** JavaScript values and string built-ins that the webhook server relies on:
    `undefined`-or-string values and their truthiness, `String.prototype.includes`,
    ASCII `toLowerCase` and `trim`. */
module JsValues {

  /** A value that may be `undefined` (a missing query parameter, header,
      environment variable or JSON property). */
  datatype Option<+T> = None | Some(value: T)

  /** JavaScript truthiness of a possibly-undefined string:
      `undefined` and the empty string are falsy, every other string is truthy. */
  predicate Truthy(v: Option<string>)
  {
    v.Some? && v.value != ""
  }

  // ---------------------------------------------------------------------------
  // String.prototype.includes
  // ---------------------------------------------------------------------------

  /** `t` occurs in `s` starting at position `i` (the reference definition). */
  ghost predicate OccursAt(s: string, t: string, i: int)
  {
    0 <= i && i + |t| <= |s| && s[i..i + |t|] == t
  }

  /** Characters `j..` of `t` match `s` from position `i + j` on. */
  function MatchAt(s: string, t: string, i: nat, j: nat): (b: bool)
    requires j <= |t|
    ensures b <==> i + |t| <= |s| && s[i + j..i + |t|] == t[j..]
    decreases |t| - j
  {
    if j == |t| then i + j <= |s|
    else if i + j < |s| && s[i + j] == t[j] then
      var b := MatchAt(s, t, i, j + 1);
      assert i + |t| <= |s| ==> s[i + j..i + |t|] == [s[i + j]] + s[i + j + 1..i + |t|];
      assert t[j..] == [t[j]] + t[j + 1..];
      b
    else
      assert i + |t| <= |s| ==> s[i + j..i + |t|][0] == s[i + j];
      false
  }

  /** Scans the start positions `i, i + 1, ..., |s|` for an occurrence of `t`. */
  function IncludesFrom(s: string, t: string, i: nat): (b: bool)
    requires i <= |s|
    ensures b <==> exists k :: i <= k && OccursAt(s, t, k)
    decreases |s| - i
  {
    if MatchAt(s, t, i, 0) then
      assert OccursAt(s, t, i);
      true
    else if i == |s| then
      assert forall k :: i <= k && OccursAt(s, t, k) ==> k == i;
      false
    else
      var b := IncludesFrom(s, t, i + 1);
      assert !OccursAt(s, t, i);
      b
  }

  /** `s.includes(t)`: true exactly when `t` occurs somewhere in `s`
      (the empty string occurs in every string). */
  function Includes(s: string, t: string): (b: bool)
    ensures b <==> exists k :: OccursAt(s, t, k)
  {
    IncludesFrom(s, t, 0)
  }

  /** A string always includes every string it is built around. */
  lemma {:induction false} IncludesMiddle(a: string, t: string, c: string)
    ensures Includes(a + t + c, t)
  {
    var s := a + t + c;
    assert s[|a|..|a| + |t|] == t;
    assert OccursAt(s, t, |a|);
  }

  /** `t` is not found from position `i` on when it matches at none of the
      positions `i..|s|`. */
  lemma {:induction false} NoMatchFrom(s: string, t: string, i: nat)
    requires i <= |s|
    requires forall j :: i <= j <= |s| ==> !MatchAt(s, t, j, 0)
    ensures !IncludesFrom(s, t, i)
    decreases |s| - i
  {
    if i < |s| {
      NoMatchFrom(s, t, i + 1);
    }
  }

  /** A string that lacks one of the characters of `t` does not include `t`. */
  lemma {:induction false} LacksCharacter(s: string, t: string, c: char)
    requires c in t && c !in s
    ensures !Includes(s, t)
  {
    var j :| 0 <= j < |t| && t[j] == c;
    forall i | 0 <= i
      ensures !OccursAt(s, t, i)
    {
      if i + |t| <= |s| {
        assert s[i..i + |t|][j] == s[i + j] != c;
      }
    }
  }

  // ---------------------------------------------------------------------------
  // String.prototype.toLowerCase, restricted to ASCII
  // ---------------------------------------------------------------------------

  predicate IsAsciiLowerLetter(c: char)
  {
    'a' <= c <= 'z'
  }

  predicate IsAsciiUpper(c: char)
  {
    'A' <= c <= 'Z'
  }

  function LowerChar(c: char): (d: char)
    ensures !IsAsciiUpper(d)
    ensures IsAsciiUpper(c) ==> d as int == c as int + 32
    ensures !IsAsciiUpper(c) ==> d == c
  {
    if IsAsciiUpper(c) then (c as int + 32) as char else c
  }

  /** ASCII case folding: the result has the same length, maps each upper-case
      ASCII letter to its lower-case letter, and keeps every other character. */
  function Lower(s: string): (r: string)
    ensures |r| == |s|
    ensures forall i :: 0 <= i < |r| ==> !IsAsciiUpper(r[i])
    ensures forall i :: 0 <= i < |r| && !IsAsciiUpper(s[i]) ==> r[i] == s[i]
    ensures forall i :: 0 <= i < |r| && IsAsciiUpper(s[i]) ==> r[i] as int == s[i] as int + 32
  {
    seq(|s|, i requires 0 <= i < |s| => LowerChar(s[i]))
  }

  // ---------------------------------------------------------------------------
  // String.prototype.trim
  // ---------------------------------------------------------------------------

  /** The characters ECMAScript's `trim` removes: WhiteSpace (tab, vertical tab,
      form feed, space, no-break space, byte order mark and the other space
      separators of Unicode category Zs) and LineTerminator (LF, CR, LS, PS). */
  predicate IsJsSpace(c: char)
  {
    c == '\t' || c == '\n' || c == '\U{000B}' || c == '\U{000C}' || c == '\r' || c == ' '
    || c == '\U{00A0}' || c == '\U{1680}' || ('\U{2000}' <= c <= '\U{200A}')
    || c == '\U{2028}' || c == '\U{2029}' || c == '\U{202F}' || c == '\U{205F}'
    || c == '\U{3000}' || c == '\U{FEFF}'
  }

  lemma LetterIsNotSpace(c: char)
    requires IsAsciiLowerLetter(c)
    ensures !IsJsSpace(c)
  {
  }

  /** Removes the leading white space: the result is a suffix of `s`, what was
      cut is all white space, and the result does not start with white space. */
  function TrimStart(s: string): (r: string)
    ensures |r| <= |s| && r == s[|s| - |r|..]
    ensures forall i :: 0 <= i < |s| - |r| ==> IsJsSpace(s[i])
    ensures r != [] ==> !IsJsSpace(r[0])
  {
    if s != [] && IsJsSpace(s[0]) then TrimStart(s[1..]) else s
  }

  /** Removes the trailing white space: the result is a prefix of `s`, what was
      cut is all white space, and the result does not end with white space. */
  function TrimEnd(s: string): (r: string)
    ensures |r| <= |s| && r == s[..|r|]
    ensures forall i :: |r| <= i < |s| ==> IsJsSpace(s[i])
    ensures r != [] ==> !IsJsSpace(r[|r| - 1])
  {
    if s != [] && IsJsSpace(s[|s| - 1]) then TrimEnd(s[..|s| - 1]) else s
  }

  /** Removes the white space at both ends: the result is a contiguous slice
      of `s`, everything cut on either side is white space, and the result
      neither starts nor ends with white space. */
  function Trim(s: string): (r: string)
    ensures exists d ::
      && OccursAt(s, r, d)
      && (forall i :: 0 <= i < d ==> IsJsSpace(s[i]))
      && (forall i :: d + |r| <= i < |s| ==> IsJsSpace(s[i]))
    ensures r != [] ==> !IsJsSpace(r[0]) && !IsJsSpace(r[|r| - 1])
  {
    var t := TrimStart(s);
    var r := TrimEnd(t);
    var d := |s| - |t|;
    assert OccursAt(s, r, d);
    r
  }

  /** An occurrence of a keyword that does not start with white space lies
      inside what `TrimStart` keeps. */
  lemma TrimStartKeepsOccurrence(s: string, k: string, i: int)
    requires k != [] && !IsJsSpace(k[0]) && OccursAt(s, k, i)
    ensures OccursAt(TrimStart(s), k, i - (|s| - |TrimStart(s)|))
  {
    var r := TrimStart(s);
    var d := |s| - |r|;
    assert !IsJsSpace(s[i]);
    assert i >= d;
    assert r[i - d..i - d + |k|] == s[i..i + |k|];
  }

  /** A keyword that does not start with white space is found in
      `TrimStart(s)` exactly when it is found in `s`. */
  lemma TrimStartKeepsKeywords(s: string, k: string)
    requires k != [] && !IsJsSpace(k[0])
    ensures Includes(TrimStart(s), k) == Includes(s, k)
  {
    var r := TrimStart(s);
    if Includes(s, k) {
      var i :| OccursAt(s, k, i);
      TrimStartKeepsOccurrence(s, k, i);
    }
    if Includes(r, k) {
      var i :| OccursAt(r, k, i);
      TrimStartOccurrenceIsOriginal(s, k, i);
    }
  }

  /** An occurrence in what `TrimStart` keeps is one in `s`, shifted by the
      white space removed. */
  lemma TrimStartOccurrenceIsOriginal(s: string, k: string, i: int)
    requires OccursAt(TrimStart(s), k, i)
    ensures OccursAt(s, k, i + (|s| - |TrimStart(s)|))
  {
    var r := TrimStart(s);
    var d := |s| - |r|;
    assert s[i + d..i + d + |k|] == r[i..i + |k|];
  }

  /** An occurrence of a keyword that does not end with white space lies
      inside what `TrimEnd` keeps. */
  lemma TrimEndKeepsOccurrence(s: string, k: string, i: int)
    requires k != [] && !IsJsSpace(k[|k| - 1]) && OccursAt(s, k, i)
    ensures OccursAt(TrimEnd(s), k, i)
  {
    var r := TrimEnd(s);
    assert !IsJsSpace(s[i + |k| - 1]);
    assert i + |k| <= |r|;
    assert r[i..i + |k|] == s[i..i + |k|];
  }

  /** A keyword that does not end with white space is found in `TrimEnd(s)`
      exactly when it is found in `s`. */
  lemma TrimEndKeepsKeywords(s: string, k: string)
    requires k != [] && !IsJsSpace(k[|k| - 1])
    ensures Includes(TrimEnd(s), k) == Includes(s, k)
  {
    var r := TrimEnd(s);
    if Includes(s, k) {
      var i :| OccursAt(s, k, i);
      TrimEndKeepsOccurrence(s, k, i);
    }
    if Includes(r, k) {
      var i :| OccursAt(r, k, i);
      assert s[i..i + |k|] == r[i..i + |k|];
      assert OccursAt(s, k, i);
    }
  }

  /** Trimming never changes whether a keyword without surrounding white space
      is found. */
  lemma TrimKeepsKeywords(s: string, k: string)
    requires k != [] && !IsJsSpace(k[0]) && !IsJsSpace(k[|k| - 1])
    ensures Includes(Trim(s), k) == Includes(s, k)
  {
    TrimStartKeepsKeywords(s, k);
    TrimEndKeepsKeywords(TrimStart(s), k);
  }
}
