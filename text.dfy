/** Python's `str.strip()` (no argument) and `str.join` over strings of Unicode code points. */
module Text {

  /** The code points for which Python's `str.isspace()` holds. */
  predicate IsSpace(ch: char) {
    || ('\t' <= ch <= '\r')
    || ('\U{1C}' <= ch <= ' ')
    || ch == '\U{85}' || ch == '\U{A0}' || ch == '\U{1680}'
    || ('\U{2000}' <= ch <= '\U{200A}')
    || ch == '\U{2028}' || ch == '\U{2029}' || ch == '\U{202F}' || ch == '\U{205F}'
    || ch == '\U{3000}'
  }

  predicate AllSpace(s: string) {
    forall i :: 0 <= i < |s| ==> IsSpace(s[i])
  }

  /** `s.lstrip()`: drops the leading whitespace and nothing else (see `TrimStartCuts`). */
  function TrimStart(s: string): (r: string)
    ensures |r| <= |s|
  {
    if s != [] && IsSpace(s[0]) then TrimStart(s[1..]) else s
  }

  /** `s.rstrip()`: drops the trailing whitespace and nothing else (see `TrimEndCuts`). */
  function TrimEnd(s: string): (r: string)
    ensures |r| <= |s|
  {
    if s != [] && IsSpace(s[|s| - 1]) then TrimEnd(s[..|s| - 1]) else s
  }

  /** `TrimStart` keeps a suffix, cuts only whitespace, and stops at a non-space. */
  lemma {:induction false} TrimStartCuts(s: string)
    ensures var r := TrimStart(s);
      && r == s[|s| - |r|..]
      && AllSpace(s[..|s| - |r|])
      && (r != [] ==> !IsSpace(r[0]))
  {
    if s != [] && IsSpace(s[0]) {
      TrimStartCuts(s[1..]);
      var r := TrimStart(s[1..]);
      assert s[..|s| - |r|] == [s[0]] + s[1..][..|s| - 1 - |r|];
    }
  }

  /** `TrimEnd` keeps a prefix, cuts only whitespace, and stops at a non-space. */
  lemma {:induction false} TrimEndCuts(s: string)
    ensures var r := TrimEnd(s);
      && r == s[..|r|]
      && AllSpace(s[|r|..])
      && (r != [] ==> !IsSpace(r[|r| - 1]))
  {
    if s != [] && IsSpace(s[|s| - 1]) {
      TrimEndCuts(s[..|s| - 1]);
      var r := TrimEnd(s[..|s| - 1]);
      assert s[|r|..] == s[..|s| - 1][|r|..] + [s[|s| - 1]];
    }
  }

  /**
    `r` is `s` with whitespace-only margins cut off at `i` and `i + |r|`,
    and `r` itself neither starts nor ends with whitespace.
  */
  ghost predicate StripWindow(s: string, i: int, r: string) {
    && 0 <= i <= |s| - |r|
    && r == s[i..i + |r|]
    && AllSpace(s[..i])
    && AllSpace(s[i + |r|..])
    && (r != [] ==> !IsSpace(r[0]) && !IsSpace(r[|r| - 1]))
  }

  /** `s.strip()`. */
  function Strip(s: string): (r: string)
    ensures |r| <= |s|
    ensures r == [] <==> AllSpace(s)
    ensures r != [] ==> !IsSpace(r[0]) && !IsSpace(r[|r| - 1])
  {
    var t := TrimStart(s);
    TrimStartCuts(s);
    TrimEndCuts(t);
    assert t == [] ==> s == s[..|s| - |t|];
    TrimEnd(t)
  }

  /** `Strip` cuts whitespace-only margins off `s`: it returns a window of `s`. */
  lemma StripIsWindow(s: string) returns (i: int)
    ensures StripWindow(s, i, Strip(s))
  {
    var t := TrimStart(s);
    var r := TrimEnd(t);
    TrimStartCuts(s);
    TrimEndCuts(t);
    i := |s| - |t|;
    assert s[i..i + |r|] == r;
    assert s[i + |r|..] == t[|r|..];
  }

  /** The window of `StripWindow` is unique: whatever meets it is what `Strip` returns. */
  lemma StripUnique(s: string, i: int, r: string)
    requires StripWindow(s, i, r)
    ensures r == Strip(s)
  {
    var i' := StripIsWindow(s);
    if r == [] {
      SpaceMargins(s, i, 0);
    } else {
      SameWindow(s, i, r, i', Strip(s));
    }
  }

  /**
    Two windows over a string with a non-space character coincide: each starts
    at its first non-space character and ends after its last.
  */
  lemma SameWindow(s: string, i: int, r: string, i': int, r': string)
    requires StripWindow(s, i, r) && StripWindow(s, i', r')
    requires r != [] && r' != []
    ensures r == r'
  {
    assert s[i] == r[0] && s[i + |r| - 1] == r[|r| - 1];
    assert s[i'] == r'[0] && s[i' + |r'| - 1] == r'[|r'| - 1];
    SpaceMargins(s, i, |r|);
    SpaceMargins(s, i', |r'|);
    FirstNonSpace(s, i, i');
    LastNonSpace(s, i + |r|, i' + |r'|);
  }

  /** The margins of a window, stated element by element. */
  lemma SpaceMargins(s: string, i: int, n: int)
    requires 0 <= i <= i + n <= |s|
    requires AllSpace(s[..i]) && AllSpace(s[i + n..])
    ensures forall k :: 0 <= k < i ==> IsSpace(s[k])
    ensures forall k :: i + n <= k < |s| ==> IsSpace(s[k])
  {
    forall k | 0 <= k < i ensures IsSpace(s[k]) { assert s[..i][k] == s[k]; }
    forall k | i + n <= k < |s| ensures IsSpace(s[k]) { assert s[i + n..][k - i - n] == s[k]; }
  }

  /** Only one position is a non-space preceded by spaces alone. */
  lemma FirstNonSpace(s: string, i: int, i': int)
    requires 0 <= i < |s| && 0 <= i' < |s|
    requires forall k :: 0 <= k < i ==> IsSpace(s[k])
    requires forall k :: 0 <= k < i' ==> IsSpace(s[k])
    requires !IsSpace(s[i]) && !IsSpace(s[i'])
    ensures i == i'
  {
  }

  /** Only one position ends on a non-space followed by spaces alone. */
  lemma LastNonSpace(s: string, j: int, j': int)
    requires 0 < j <= |s| && 0 < j' <= |s|
    requires forall k :: j <= k < |s| ==> IsSpace(s[k])
    requires forall k :: j' <= k < |s| ==> IsSpace(s[k])
    requires !IsSpace(s[j - 1]) && !IsSpace(s[j' - 1])
    ensures j == j'
  {
  }

  /** Stripping twice changes nothing more. */
  lemma StripIdempotent(s: string)
    ensures Strip(Strip(s)) == Strip(s)
  {
    var r := Strip(s);
    assert StripWindow(r, 0, r);
    StripUnique(r, 0, r);
  }

  /** `sep.join(parts)`. */
  function Join(parts: seq<string>, sep: string): (r: string)
    ensures |parts| == 1 ==> r == parts[0]
    ensures |parts| > 0 ==> |r| == TotalLength(parts) + (|parts| - 1) * |sep|
    ensures |parts| > 0 ==> r[..|parts[0]|] == parts[0]
  {
    if |parts| == 0 then ""
    else if |parts| == 1 then parts[0]
    else parts[0] + sep + Join(parts[1..], sep)
  }

  /** Joining one more part appends the separator and that part. */
  lemma {:induction false} JoinAppend(parts: seq<string>, x: string, sep: string)
    requires parts != []
    ensures Join(parts + [x], sep) == Join(parts, sep) + sep + x
  {
    assert (parts + [x])[0] == parts[0];
    if |parts| == 1 {
      assert (parts + [x])[1..] == [x];
    } else {
      JoinAppend(parts[1..], x, sep);
      assert (parts + [x])[1..] == parts[1..] + [x];
    }
  }

  /** The summed lengths of `parts`. */
  function TotalLength(parts: seq<string>): nat {
    if parts == [] then 0 else |parts[0]| + TotalLength(parts[1..])
  }
}
