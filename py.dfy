/** The few pieces of Python's built-in behaviour the repository's code leans on:
    `min`, slicing a `str`, `str.strip`, `str.join`, truthiness of an optional
    string, and the outcome of a call that may raise. */
module Py {
  import opened Wrappers

  /** What a Python call does: return a value or raise an exception, whose
      `str(e)` is kept as `error`. */
  datatype Outcome<+T> = Returned(value: T) | Raised(error: string)

  /** Python's `min(a, b)` on integers. */
  function Min(a: int, b: int): (m: int)
    ensures m <= a && m <= b
    ensures m == a || m == b
  {
    if b < a then b else a
  }

  /** An optional string is falsy (`not x`) when it is `None` or empty. */
  predicate Falsy(s: Option<string>)
  {
    s.None? || s.value == ""
  }

  /** An index of a slice `s[i:j]`, normalised as Python does: a negative index
      counts from the end, and the result is clamped into `0..|s|`. */
  function SliceIndex(n: nat, i: int): (k: nat)
    ensures k <= n
    ensures 0 <= i <= n ==> k == i
    ensures i < 0 ==> k == (if i + n < 0 then 0 else i + n)
    ensures i > n ==> k == n
  {
    if i < 0 then (if i + n < 0 then 0 else i + n)
    else if i > n then n
    else i
  }

  /** Python's `s[i:j]` on a `str` (step 1). */
  function Slice(s: string, i: int, j: int): (r: string)
    ensures |r| <= |s|
    ensures 0 <= i <= j <= |s| ==> r == s[i..j]
    ensures 0 <= j <= i ==> r == []
  {
    var lo, hi := SliceIndex(|s|, i), SliceIndex(|s|, j);
    if lo < hi then s[lo..hi] else []
  }

  /** The characters for which Python's `str.isspace()` holds. */
  predicate IsSpace(c: char)
  {
    c == ' ' || c == '\t' || c == '\n' || c == '\r' || c == '\U{0B}' || c == '\U{0C}'
    || ('\U{1C}' <= c <= '\U{1F}')
    || c == '\U{85}' || c == '\U{A0}' || c == '\U{1680}'
    || ('\U{2000}' <= c <= '\U{200A}')
    || c == '\U{2028}' || c == '\U{2029}' || c == '\U{202F}' || c == '\U{205F}' || c == '\U{3000}'
  }

  /** Every character of `s` is white space (vacuously true of ""). */
  predicate AllSpace(s: string)
  {
    forall i :: 0 <= i < |s| ==> IsSpace(s[i])
  }

  /** How many white-space characters open `s`. */
  function LeadingSpace(s: string): (n: nat)
    ensures n <= |s|
    ensures forall i :: 0 <= i < n ==> IsSpace(s[i])
    ensures n < |s| ==> !IsSpace(s[n])
  {
    if s != [] && IsSpace(s[0]) then
      var n := LeadingSpace(s[1..]);
      assert forall i :: 0 <= i < n ==> s[1..][i] == s[i + 1];
      n + 1
    else 0
  }

  /** How many white-space characters close `s`. */
  function TrailingSpace(s: string): (n: nat)
    ensures n <= |s|
    ensures forall i :: |s| - n <= i < |s| ==> IsSpace(s[i])
    ensures n < |s| ==> !IsSpace(s[|s| - 1 - n])
  {
    if s != [] && IsSpace(s[|s| - 1]) then
      var n := TrailingSpace(s[..|s| - 1]);
      assert forall i :: 0 <= i < |s| - 1 ==> s[..|s| - 1][i] == s[i];
      n + 1
    else 0
  }

  /** `s.lstrip()`: what is left once the white space opening `s` is removed. */
  function TrimStart(s: string): (r: string)
    ensures |r| <= |s| && r == s[|s| - |r|..]
    ensures AllSpace(s[..|s| - |r|])
    ensures r == [] || !IsSpace(r[0])
    ensures r == [] <==> AllSpace(s)
  {
    var n := LeadingSpace(s);
    assert forall i :: 0 <= i < n ==> s[..n][i] == s[i];
    s[n..]
  }

  /** `s.rstrip()`: what is left once the white space closing `s` is removed. */
  function TrimEnd(s: string): (r: string)
    ensures |r| <= |s| && r == s[..|r|]
    ensures AllSpace(s[|r|..])
    ensures r == [] || !IsSpace(r[|r| - 1])
    ensures r == [] <==> AllSpace(s)
  {
    var n := TrailingSpace(s);
    var r := s[..|s| - n];
    var tail := s[|s| - n..];
    assert forall i :: 0 <= i < |r| ==> r[i] == s[i];
    assert forall i :: 0 <= i < |tail| ==> tail[i] == s[|s| - n + i];
    r
  }

  /** `s.strip()`. */
  function Strip(s: string): string
  {
    TrimEnd(TrimStart(s))
  }

  /** `not s.strip()` holds exactly when `s` consists of white space only. */
  lemma StripEmptyIffAllSpace(s: string)
    ensures Strip(s) == [] <==> AllSpace(s)
  {
  }

  /** `sep.join(parts)`. */
  function Join(sep: string, parts: seq<string>): string
  {
    if parts == [] then []
    else if |parts| == 1 then parts[0]
    else parts[0] + sep + Join(sep, parts[1..])
  }

  /** Where `parts[i]` starts inside `Join(sep, parts)`: the lengths of the
      parts before it, each followed by one separator. */
  function JoinOffset(sep: string, parts: seq<string>, i: nat): nat
    requires i <= |parts|
  {
    if i == 0 then 0 else |parts[0]| + |sep| + JoinOffset(sep, parts[1..], i - 1)
  }

  /** The joined string holds every part verbatim at its offset; the last
      part ends the string. */
  lemma {:induction false} JoinPartAt(sep: string, parts: seq<string>, i: nat)
    requires i < |parts|
    ensures JoinOffset(sep, parts, i) + |parts[i]| <= |Join(sep, parts)|
    ensures Join(sep, parts)[JoinOffset(sep, parts, i)..JoinOffset(sep, parts, i) + |parts[i]|] == parts[i]
    ensures i + 1 == |parts| ==> JoinOffset(sep, parts, i) + |parts[i]| == |Join(sep, parts)|
  {
    if |parts| > 1 && i > 0 {
      var head, rest := parts[0] + sep, parts[1..];
      assert Join(sep, parts) == head + Join(sep, rest);
      JoinPartAt(sep, rest, i - 1);
      assert rest[i - 1] == parts[i];
      var o := JoinOffset(sep, rest, i - 1);
      SliceOfConcat(head, Join(sep, rest), o, o + |parts[i]|);
    }
  }

  /** Between each part and the next the joined string holds the separator. */
  lemma {:induction false} JoinSeparatorAt(sep: string, parts: seq<string>, i: nat)
    requires i + 1 < |parts|
    ensures JoinOffset(sep, parts, i + 1) == JoinOffset(sep, parts, i) + |parts[i]| + |sep|
    ensures JoinOffset(sep, parts, i + 1) <= |Join(sep, parts)|
    ensures Join(sep, parts)[JoinOffset(sep, parts, i) + |parts[i]|..JoinOffset(sep, parts, i + 1)] == sep
  {
    var head, rest := parts[0] + sep, parts[1..];
    assert Join(sep, parts) == head + Join(sep, rest);
    if i == 0 {
      JoinPartAt(sep, rest, 0);
    } else {
      JoinSeparatorAt(sep, rest, i - 1);
      assert rest[i - 1] == parts[i];
      var o := JoinOffset(sep, rest, i - 1) + |parts[i]|;
      SliceOfConcat(head, Join(sep, rest), o, o + |sep|);
    }
  }

  /** A slice of `x + y` that lies in `y`. */
  lemma SliceOfConcat(x: string, y: string, a: nat, b: nat)
    requires a <= b <= |y|
    ensures (x + y)[|x| + a..|x| + b] == y[a..b]
  {
    assert forall k :: 0 <= k < b - a ==> (x + y)[|x| + a..|x| + b][k] == y[a..b][k];
  }
}
