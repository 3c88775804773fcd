/** The JavaScript string built-ins the client relies on: `trim`, `indexOf`
    of a single character, `slice` with its clamping of negative and
    out-of-range indices, and `split` on a separator string. */
module JsString {

  /** WhiteSpace and LineTerminator code points of ECMAScript, the set
      `String.prototype.trim` and `Number(string)` strip. */
  predicate IsWhitespace(c: char) {
    c == ' ' || c == '\t' || c == '\n' || c == '\r' || c == '\U{000B}' || c == '\U{000C}'
    || c == '\U{00A0}' || c == '\U{FEFF}' || c == '\U{1680}'
    || ('\U{2000}' <= c <= '\U{200A}')
    || c == '\U{2028}' || c == '\U{2029}' || c == '\U{202F}' || c == '\U{205F}' || c == '\U{3000}'
  }

  function TrimStart(s: string): (r: string)
    ensures |r| <= |s| && r == s[|s| - |r|..]
    ensures r == [] || !IsWhitespace(r[0])
    ensures forall i :: 0 <= i < |s| - |r| ==> IsWhitespace(s[i])
  {
    if s != [] && IsWhitespace(s[0]) then TrimStart(s[1..]) else s
  }

  function TrimEnd(s: string): (r: string)
    ensures |r| <= |s| && r == s[..|r|]
    ensures r == [] || !IsWhitespace(r[|r| - 1])
    ensures forall i :: |r| <= i < |s| ==> IsWhitespace(s[i])
  {
    if s != [] && IsWhitespace(s[|s| - 1]) then TrimEnd(s[..|s| - 1]) else s
  }

  /** `r` is `s[i..j]` and everything of `s` outside it is whitespace. */
  predicate TrimmedAt(s: string, i: int, j: int, r: string) {
    && 0 <= i <= j <= |s| && r == s[i..j]
    && (forall k :: 0 <= k < i ==> IsWhitespace(s[k]))
    && (forall k :: j <= k < |s| ==> IsWhitespace(s[k]))
  }

  /** `s.trim()`: `s` without its leading and trailing whitespace. */
  function Trim(s: string): (r: string)
    ensures r == [] || (!IsWhitespace(r[0]) && !IsWhitespace(r[|r| - 1]))
    ensures exists i, j :: TrimmedAt(s, i, j, r)
  {
    var t := TrimStart(s);
    var r := TrimEnd(t);
    var i, j := |s| - |t|, |s| - |t| + |r|;
    assert TrimmedAt(s, i, j, r) by {
      assert r == s[i..j];
      forall k | j <= k < |s| ensures IsWhitespace(s[k]) {
        assert s[k] == t[k - i];
      }
    }
    r
  }

  /** A string that neither starts nor ends with whitespace is its own trim. */
  lemma TrimOfTrimmed(s: string)
    requires s != [] && !IsWhitespace(s[0]) && !IsWhitespace(s[|s| - 1])
    ensures Trim(s) == s
  {
    assert TrimStart(s) == s;
    assert TrimEnd(s) == s;
  }

  /** `s.indexOf(c)`: the first position of `c`, or -1. */
  function IndexOf(s: string, c: char): (r: int)
    ensures -1 <= r < |s|
    ensures r == -1 <==> c !in s
    ensures r >= 0 ==> s[r] == c && c !in s[..r]
  {
    if s == [] then -1
    else if s[0] == c then 0
    else
      var k := IndexOf(s[1..], c);
      assert s[1..][..if k < 0 then 0 else k] == s[1..1 + if k < 0 then 0 else k];
      if k < 0 then -1 else 1 + k
  }

  /** `indexOf` finds the first occurrence. */
  lemma {:induction false} IndexOfFirst(s: string, c: char, i: nat)
    requires i < |s| && s[i] == c
    requires forall j :: 0 <= j < i ==> s[j] != c
    ensures IndexOf(s, c) == i
    decreases i
  {
    if i > 0 {
      IndexOfFirst(s[1..], c, i - 1);
    }
  }

  /** How `slice` turns an index argument into a position: negative values
      count from the end, and the result is clamped to `0..len`. */
  function RelativeIndex(x: int, len: nat): (p: nat)
    ensures p <= len
    ensures 0 <= x <= len ==> p == x
    ensures x < 0 && -x <= len ==> p == len + x
  {
    if x < 0 then (if len + x < 0 then 0 else len + x)
    else if x > len then len
    else x
  }

  /** `s.slice(start, end)`, with positions counted in characters rather
      than UTF-16 code units. */
  function Slice(s: string, start: int, end: int): string {
    var from := RelativeIndex(start, |s|);
    var to := RelativeIndex(end, |s|);
    if from < to then s[from..to] else ""
  }

  /** `s.slice(start)`. */
  function SliceFrom(s: string, start: int): string {
    Slice(s, start, |s|)
  }

  /** `s.split(sep)` for a non-empty separator: the pieces between the
      non-overlapping occurrences of `sep`, found left to right. */
  function Split(s: string, sep: string): (pieces: seq<string>)
    requires sep != []
    ensures |pieces| >= 1
    decreases |s|
  {
    if |sep| <= |s| && s[..|sep|] == sep then [""] + Split(s[|sep|..], sep)
    else if s == [] then [""]
    else
      var rest := Split(s[1..], sep);
      [[s[0]] + rest[0]] + rest[1..]
  }

  /** `s` has the two characters `sep0 sep1` at some position. */
  predicate ContainsPair(s: string, sep0: char, sep1: char) {
    exists i :: 0 <= i < |s| - 1 && s[i] == sep0 && s[i + 1] == sep1
  }

  /** Splitting a string that does not contain a two-character separator
      gives the string itself. */
  lemma {:induction false} SplitWithoutSeparator(s: string, sep: string)
    requires |sep| == 2 && !ContainsPair(s, sep[0], sep[1])
    ensures Split(s, sep) == [s]
    decreases |s|
  {
    if s != [] {
      if |s| >= 2 {
        assert !(s[0] == sep[0] && s[1] == sep[1]);
        assert s[..2] != sep by { assert s[..2][0] == s[0] && s[..2][1] == s[1]; }
      }
      forall i | 0 <= i < |s[1..]| - 1
        ensures !(s[1..][i] == sep[0] && s[1..][i + 1] == sep[1])
      {
        assert s[1..][i] == s[i + 1] && s[1..][i + 1] == s[i + 2];
      }
      SplitWithoutSeparator(s[1..], sep);
      assert [s[0]] + s[1..] == s;
    }
  }

  /** `split` at a string that starts with the separator. */
  lemma SplitAtSeparator(s: string, sep: string)
    requires sep != [] && |sep| <= |s| && s[..|sep|] == sep
    ensures Split(s, sep) == [""] + Split(s[|sep|..], sep)
  {
  }

  /** `split` of the separator followed by `x`. */
  lemma SplitAfterSeparator(sep: string, x: string)
    requires sep != []
    ensures Split(sep + x, sep) == [""] + Split(x, sep)
  {
    var s := sep + x;
    assert s[..|sep|] == sep && s[|sep|..] == x;
    SplitAtSeparator(s, sep);
  }

  /** `split` of a character followed by `x`, when that does not start
      with the separator: the character joins the first piece of `x`. */
  lemma SplitAfterChar(c: char, x: string, sep: string)
    requires sep != [] && !(|sep| <= |[c] + x| && ([c] + x)[..|sep|] == sep)
    ensures var rest := Split(x, sep);
      Split([c] + x, sep) == [[c] + rest[0]] + rest[1..]
  {
    var s := [c] + x;
    assert s[0] == c && s[1..] == x;
  }

  /** `SplitAround` for an empty `a`. */
  lemma SplitAroundEmpty(sep: string, b: string)
    requires |sep| == 2
    ensures Split([] + sep + b, sep) == Split([], sep) + Split(b, sep)
  {
    SplitAfterSeparator(sep, b);
    assert [] + sep + b == sep + b;
  }

  /** `SplitAround` for an `a` that starts with the separator, given the
      property for the rest `t` of `a`. */
  lemma SplitAroundAtSeparator(t: string, sep: string, b: string)
    requires |sep| == 2
    requires Split(t + sep + b, sep) == Split(t, sep) + Split(b, sep)
    ensures Split(sep + (t + sep + b), sep) == Split(sep + t, sep) + Split(b, sep)
  {
    SplitAfterSeparator(sep, t + sep + b);
    SplitAfterSeparator(sep, t);
  }

  /** `c` followed by `t + sep + b` does not start with `sep` when `[c] + t`
      does not start with it either, for a separator of two different
      characters. */
  lemma NoSeparatorAtStart(c: char, t: string, sep: string, b: string)
    requires |sep| == 2 && sep[0] != sep[1] && !(|[c] + t| >= 2 && ([c] + t)[..2] == sep)
    ensures var s := [c] + (t + sep + b); !(|sep| <= |s| && s[..|sep|] == sep)
  {
    var s := [c] + (t + sep + b);
    if |t| == 0 {
      assert s[..2][1] == sep[0];
    } else {
      assert s[..2] == ([c] + t)[..2];
    }
  }

  /** Prefixing a character to the first piece commutes with appending
      further pieces. */
  lemma PrefixFirstPiece(c: char, ra: seq<string>, rb: seq<string>)
    requires |ra| >= 1
    ensures var rest := ra + rb;
      [[c] + rest[0]] + rest[1..] == ([[c] + ra[0]] + ra[1..]) + rb
  {
    var rest := ra + rb;
    assert rest[0] == ra[0];
    assert rest[1..] == ra[1..] + rb;
  }

  /** `SplitAround` for an `a` = `[c] + t` that does not start with the
      separator, given the property for `t`. */
  lemma SplitAroundStep(c: char, t: string, sep: string, b: string)
    requires |sep| == 2 && sep[0] != sep[1] && !(|[c] + t| >= 2 && ([c] + t)[..2] == sep)
    requires Split(t + sep + b, sep) == Split(t, sep) + Split(b, sep)
    ensures Split([c] + (t + sep + b), sep) == Split([c] + t, sep) + Split(b, sep)
  {
    NoSeparatorAtStart(c, t, sep, b);
    SplitAfterChar(c, t + sep + b, sep);
    SplitAfterChar(c, t, sep);
    PrefixFirstPiece(c, Split(t, sep), Split(b, sep));
  }

  /** Splitting `a + sep + b` splits `a` and `b` independently, for a
      two-character separator whose second character differs from its
      first (so no occurrence can start in the last character of `a`). */
  lemma {:induction false} SplitAround(a: string, sep: string, b: string)
    requires |sep| == 2 && sep[0] != sep[1]
    ensures Split(a + sep + b, sep) == Split(a, sep) + Split(b, sep)
    decreases |a|
  {
    if a == [] {
      SplitAroundEmpty(sep, b);
      assert a + sep + b == [] + sep + b;
    } else if |a| >= 2 && a[..2] == sep {
      var t := a[2..];
      assert a + sep + b == sep + (t + sep + b) by { assert a == sep + t; }
      assert a == sep + t;
      SplitAround(t, sep, b);
      SplitAroundAtSeparator(t, sep, b);
    } else {
      var t := a[1..];
      assert a + sep + b == [a[0]] + (t + sep + b) by { assert a == [a[0]] + t; }
      assert a == [a[0]] + t;
      SplitAround(t, sep, b);
      SplitAroundStep(a[0], t, sep, b);
    }
  }
}
