/**
 * The JavaScript `String.prototype` built-ins the page code relies on:
 * `toLowerCase`, `endsWith`, `includes`, `replace` with a string pattern,
 * `split(sep).pop()` and `trim`. Strings are sequences of Unicode scalar values.
 */
module JsString {
  import opened Wrappers

  // ---------------------------------------------------------------- case

  predicate IsAsciiUpper(c: char) { 'A' <= c <= 'Z' }

  function LowerChar(c: char): (r: char)
    ensures !IsAsciiUpper(r)
    ensures IsAsciiUpper(c) ==> r as int == c as int + 32
    ensures !IsAsciiUpper(c) ==> r == c
  {
    if IsAsciiUpper(c) then (c as int + 32) as char else c
  }

  /** `s.toLowerCase()`, for the ASCII letters (the only ones file names and URLs use here). */
  function ToLowerCase(s: string): (r: string)
    ensures |r| == |s|
    ensures forall i :: 0 <= i < |s| ==> r[i] == LowerChar(s[i])
  {
    seq(|s|, i requires 0 <= i < |s| => LowerChar(s[i]))
  }

  lemma LowerCaseIdempotent(s: string)
    ensures ToLowerCase(ToLowerCase(s)) == ToLowerCase(s)
  {
  }

  // ---------------------------------------------------------------- prefixes, suffixes, search

  predicate StartsWith(s: string, prefix: string) {
    |prefix| <= |s| && s[..|prefix|] == prefix
  }

  /** `s.endsWith(suffix)` */
  predicate EndsWith(s: string, suffix: string) {
    |suffix| <= |s| && s[|s| - |suffix|..] == suffix
  }

  /** `pat` occurs in `s` starting at index `k`. */
  predicate OccursAt(s: string, pat: string, k: nat) {
    k + |pat| <= |s| && s[k..k + |pat|] == pat
  }

  /** The first occurrence of `pat` in `s` at or after `k`. */
  function IndexFrom(s: string, pat: string, k: nat): (r: Option<nat>)
    requires k <= |s|
    decreases |s| - k
    ensures r.Some? ==> k <= r.value && OccursAt(s, pat, r.value)
    ensures r.Some? ==> forall j: nat :: k <= j < r.value ==> !OccursAt(s, pat, j)
    ensures r.None? ==> forall j: nat :: k <= j ==> !OccursAt(s, pat, j)
  {
    if k + |pat| > |s| then None
    else if s[k..k + |pat|] == pat then Some(k)
    else IndexFrom(s, pat, k + 1)
  }

  /** `s.indexOf(pat)`, with -1 as `None`: the least index where `pat` occurs. */
  function IndexOf(s: string, pat: string): (r: Option<nat>)
    ensures r.Some? ==> OccursAt(s, pat, r.value)
    ensures r.Some? ==> forall j: nat :: j < r.value ==> !OccursAt(s, pat, j)
    ensures r.None? ==> forall j: nat :: !OccursAt(s, pat, j)
  {
    IndexFrom(s, pat, 0)
  }

  /** `s.includes(pat)` */
  predicate Includes(s: string, pat: string) {
    IndexOf(s, pat).Some?
  }

  /** `s.replace(pat, rep)` with a string pattern: only the first occurrence is replaced. */
  function ReplaceFirst(s: string, pat: string, rep: string): (r: string)
    ensures IndexOf(s, pat).None? ==> r == s
    ensures IndexOf(s, pat).Some? ==>
      var k := IndexOf(s, pat).value; r == s[..k] + rep + s[k + |pat|..]
  {
    match IndexOf(s, pat)
    case None => s
    case Some(k) => s[..k] + rep + s[k + |pat|..]
  }

  /** Removing a pattern that the string starts with leaves exactly the rest,
      whatever further occurrences of the pattern the rest holds. */
  lemma ReplaceLeadingOccurrence(pat: string, rest: string)
    ensures ReplaceFirst(pat + rest, pat, "") == rest
  {
    var s := pat + rest;
    assert OccursAt(s, pat, 0) by { assert s[..|pat|] == pat; }
    assert IndexOf(s, pat) == Some(0);
    assert s[|pat|..] == rest;
  }

  // ---------------------------------------------------------------- split(sep).pop()

  /** `s.split(sep).pop()`: the text after the last `sep`, or all of `s` when it has none. */
  function LastSegment(s: string, sep: char): (r: string)
    ensures sep !in r
    ensures EndsWith(s, r)
    ensures sep !in s ==> r == s
    ensures sep in s ==> |r| < |s| && s[|s| - |r| - 1] == sep
  {
    if s == [] then []
    else if s[|s| - 1] == sep then []
    else LastSegment(s[..|s| - 1], sep) + [s[|s| - 1]]
  }

  /** The segment after the last separator of `prefix + [sep] + tail` is `tail`
      when `tail` holds no separator. */
  lemma {:induction false} LastSegmentAfterSeparator(prefix: string, sep: char, tail: string)
    requires sep !in tail
    ensures LastSegment(prefix + [sep] + tail, sep) == tail
    decreases |tail|
  {
    var s := prefix + [sep] + tail;
    if tail == [] {
      assert s[|s| - 1] == sep;
    } else {
      var init := tail[..|tail| - 1];
      assert s[..|s| - 1] == prefix + [sep] + init;
      assert s[|s| - 1] == tail[|tail| - 1];
      LastSegmentAfterSeparator(prefix, sep, init);
      assert init + [tail[|tail| - 1]] == tail;
    }
  }

  // ---------------------------------------------------------------- trim

  /** ECMAScript WhiteSpace and LineTerminator code points, the set `trim` removes. */
  predicate IsWhiteSpace(c: char) {
    c == '\t' || c == '\n' || c == '\U{B}' || c == '\U{C}' || c == '\r' || c == ' '
    || c == '\U{A0}' || c == '\U{1680}' || ('\U{2000}' <= c <= '\U{200A}')
    || c == '\U{2028}' || c == '\U{2029}' || c == '\U{202F}' || c == '\U{205F}'
    || c == '\U{3000}' || c == '\U{FEFF}'
  }

  predicate AllWhiteSpace(s: string) {
    forall i :: 0 <= i < |s| ==> IsWhiteSpace(s[i])
  }

  function TrimStart(s: string): (r: string)
    ensures EndsWith(s, r)
    ensures AllWhiteSpace(s[..|s| - |r|])
    ensures r == [] || !IsWhiteSpace(r[0])
  {
    if s != [] && IsWhiteSpace(s[0]) then
      var r := TrimStart(s[1..]);
      DropWhiteHead(s, r);
      r
    else s
  }

  function TrimEnd(s: string): (r: string)
    ensures StartsWith(s, r)
    ensures AllWhiteSpace(s[|r|..])
    ensures r == [] || !IsWhiteSpace(r[|r| - 1])
  {
    if s != [] && IsWhiteSpace(s[|s| - 1]) then
      var r := TrimEnd(s[..|s| - 1]);
      DropWhiteLast(s, r);
      r
    else s
  }

  /** A leading white-space character joins the white space before a suffix. */
  lemma DropWhiteHead(s: string, r: string)
    requires s != [] && IsWhiteSpace(s[0])
    requires EndsWith(s[1..], r) && AllWhiteSpace(s[1..][..|s| - 1 - |r|])
    ensures EndsWith(s, r) && AllWhiteSpace(s[..|s| - |r|])
  {
    var tail := s[1..];
    assert s[..|s| - |r|] == [s[0]] + tail[..|tail| - |r|];
    assert s[|s| - |r|..] == tail[|tail| - |r|..];
  }

  /** A trailing white-space character joins the white space after a prefix. */
  lemma DropWhiteLast(s: string, r: string)
    requires s != [] && IsWhiteSpace(s[|s| - 1])
    requires StartsWith(s[..|s| - 1], r) && AllWhiteSpace(s[..|s| - 1][|r|..])
    ensures StartsWith(s, r) && AllWhiteSpace(s[|r|..])
  {
    var init := s[..|s| - 1];
    assert s[|r|..] == init[|r|..] + [s[|s| - 1]];
    assert s[..|r|] == init[..|r|];
  }

  /** `s.trim()`: the text between the leading and the trailing white space, and neither
      end of the result is white space. */
  function Trim(s: string): (r: string)
    ensures |r| <= |s|
    ensures exists k, m :: 0 <= k <= m <= |s| && r == s[k..m] && AllWhiteSpace(s[..k]) && AllWhiteSpace(s[m..])
    ensures r == [] || (!IsWhiteSpace(r[0]) && !IsWhiteSpace(r[|r| - 1]))
  {
    var t := TrimStart(s);
    var r := TrimEnd(t);
    PaddedSlice(s, t, r);
    assert r != [] ==> r[0] == t[0];
    r
  }

  /** A part `r` at the start of a suffix `t` of `s`, with only white space before `t` and
      after `r`, is a slice of `s` with only white space around it. */
  lemma PaddedSlice(s: string, t: string, r: string)
    requires EndsWith(s, t) && AllWhiteSpace(s[..|s| - |t|])
    requires StartsWith(t, r) && AllWhiteSpace(t[|r|..])
    ensures exists k, m :: 0 <= k <= m <= |s| && r == s[k..m] && AllWhiteSpace(s[..k]) && AllWhiteSpace(s[m..])
  {
    var k := |s| - |t|;
    var m := k + |r|;
    assert r == s[k..m];
    assert s[m..] == t[|r|..];
  }

  lemma {:induction false} TrimStartPadding(pad: string, s: string)
    requires AllWhiteSpace(pad)
    ensures TrimStart(pad + s) == TrimStart(s)
    decreases |pad|
  {
    if pad != [] {
      assert (pad + s)[1..] == pad[1..] + s;
      TrimStartPadding(pad[1..], s);
    } else {
      assert pad + s == s;
    }
  }

  lemma {:induction false} TrimEndPadding(s: string, pad: string)
    requires AllWhiteSpace(pad)
    ensures TrimEnd(s + pad) == TrimEnd(s)
    decreases |pad|
  {
    if pad != [] {
      assert (s + pad)[..|s + pad| - 1] == s + pad[..|pad| - 1];
      TrimEndPadding(s, pad[..|pad| - 1]);
    } else {
      assert s + pad == s;
    }
  }

  /** White space around a string does not change what `trim` returns. */
  lemma TrimIgnoresPadding(lead: string, s: string, trail: string)
    requires AllWhiteSpace(lead) && AllWhiteSpace(trail)
    ensures Trim(lead + s + trail) == Trim(s)
  {
    TrimStartPadding(lead, s + trail);
    assert lead + s + trail == lead + (s + trail);
    var t := TrimStart(s + trail);
    var u := TrimStart(s);
    // t is u followed by the trailing white space (or only part of it when s is all white space)
    TrimStartOfConcat(s, trail);
    TrimEndPadding(u, trail);
    if u == [] {
      TrimEndAllWhite(t);
    }
  }

  lemma {:induction false} TrimStartOfConcat(s: string, trail: string)
    requires AllWhiteSpace(trail)
    ensures TrimStart(s) != [] ==> TrimStart(s + trail) == TrimStart(s) + trail
    ensures TrimStart(s) == [] ==> AllWhiteSpace(TrimStart(s + trail))
    decreases |s|
  {
    if s == [] {
      assert s + trail == trail;
    } else if IsWhiteSpace(s[0]) {
      assert (s + trail)[1..] == s[1..] + trail;
      TrimStartOfConcat(s[1..], trail);
    } else {
      assert (s + trail)[0] == s[0];
    }
  }

  lemma {:induction false} TrimEndAllWhite(s: string)
    requires AllWhiteSpace(s)
    ensures TrimEnd(s) == []
    decreases |s|
  {
    if s != [] {
      TrimEndAllWhite(s[..|s| - 1]);
    }
  }

  /** Trimming twice is trimming once. */
  lemma TrimIdempotent(s: string)
    ensures Trim(Trim(s)) == Trim(s)
  {
    var r := Trim(s);
    if r != [] {
      assert TrimStart(r) == r;
      assert TrimEnd(r) == r;
    }
  }
}
