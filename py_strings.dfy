/** The Python string operations the layout engine relies on: `str.isspace`
    on one character, `str.strip()` without arguments, `sep.join(tokens)` and
    `s.split(sep)` for a one-character separator. */
module PyStrings {

  /** Python's whitespace characters (the code points for which `str.isspace` holds). */
  predicate IsSpace(c: char)
  {
    var n := c as int;
    || 9 <= n <= 13
    || 0x1c <= n <= 0x20
    || n == 0x85 || n == 0xa0 || n == 0x1680
    || 0x2000 <= n <= 0x200a
    || n == 0x2028 || n == 0x2029 || n == 0x202f || n == 0x205f || n == 0x3000
  }

  predicate AllSpace(s: string)
  {
    forall i :: 0 <= i < |s| ==> IsSpace(s[i])
  }

  /** The characters of `s` at positions `lo` up to `hi` are whitespace. */
  predicate SpaceBetween(s: string, lo: int, hi: int)
  {
    forall i :: 0 <= lo <= i < hi && i < |s| ==> IsSpace(s[i])
  }

  /** Where `s.lstrip()` starts: the first non-whitespace position at or after `i`. */
  function LeftEnd(s: string, i: nat): (k: nat)
    requires i <= |s|
    ensures i <= k <= |s| && SpaceBetween(s, i, k)
    ensures k < |s| ==> !IsSpace(s[k])
    decreases |s| - i
  {
    if i == |s| || !IsSpace(s[i]) then i else LeftEnd(s, i + 1)
  }

  /** Where `s.rstrip()` ends, scanning back from `hi` but not past `lo`. */
  function RightEnd(s: string, lo: nat, hi: nat): (k: nat)
    requires lo <= hi <= |s|
    ensures lo <= k <= hi && SpaceBetween(s, k, hi)
    ensures k > lo ==> !IsSpace(s[k - 1])
  {
    if hi == lo || !IsSpace(s[hi - 1]) then hi else RightEnd(s, lo, hi - 1)
  }

  /** `s.strip()`: a contiguous slice of `s` with whitespace only outside it,
      empty exactly when `s` is all whitespace. */
  function Strip(s: string): (r: string)
    ensures exists i :: 0 <= i <= |s| - |r| && r == s[i..i + |r|]
                        && SpaceBetween(s, 0, i) && SpaceBetween(s, i + |r|, |s|)
    ensures r != [] ==> !IsSpace(r[0]) && !IsSpace(r[|r| - 1])
    ensures r == [] <==> AllSpace(s)
  {
    var i := LeftEnd(s, 0);
    var j := RightEnd(s, i, |s|);
    assert i == j ==> SpaceBetween(s, 0, |s|);
    s[i..j]
  }

  /** Stripping twice is stripping once. */
  lemma StripIdempotent(s: string)
    ensures Strip(Strip(s)) == Strip(s)
  {
    var r := Strip(s);
    if r != [] {
      assert LeftEnd(r, 0) == 0;
      assert RightEnd(r, 0, |r|) == |r|;
    }
  }

  /** `sep.join(ts)`. */
  function Join(ts: seq<string>, sep: string): (r: string)
  {
    if |ts| == 0 then ""
    else if |ts| == 1 then ts[0]
    else ts[0] + sep + Join(ts[1..], sep)
  }

  /** A character found in neither the pieces nor the separator is not in the join. */
  lemma {:induction false} JoinExcludes(ts: seq<string>, sep: string, c: char)
    requires c !in sep
    requires forall i :: 0 <= i < |ts| ==> c !in ts[i]
    ensures c !in Join(ts, sep)
  {
    if |ts| > 1 {
      JoinExcludes(ts[1..], sep, c);
    }
  }

  /** `s.split(sep)` for a one-character separator: never empty, and splitting
      the empty string gives one empty piece. */
  function Split(s: string, sep: char): (r: seq<string>)
    ensures |r| >= 1
  {
    if s == [] then [""]
    else
      var rest := Split(s[1..], sep);
      if s[0] == sep then [""] + rest else [[s[0]] + rest[0]] + rest[1..]
  }

  /** Splitting `a + [sep] + b` where `a` holds no separator yields `a` first. */
  lemma {:induction false} SplitAfterPiece(a: string, sep: char, b: string)
    requires sep !in a
    ensures Split(a + [sep] + b, sep) == [a] + Split(b, sep)
  {
    if a != [] {
      assert (a + [sep] + b)[1..] == a[1..] + [sep] + b;
      SplitAfterPiece(a[1..], sep, b);
      assert [a[0]] + a[1..] == a;
    }
  }

  /** A string without a separator splits into itself alone. */
  lemma {:induction false} SplitNoSeparator(a: string, sep: char)
    requires sep !in a
    ensures Split(a, sep) == [a]
  {
    if a != [] {
      SplitNoSeparator(a[1..], sep);
      assert [a[0]] + a[1..] == a;
    }
  }

  /** `sep.join` then `split(sep)` is the identity when no piece holds the separator. */
  lemma {:induction false} SplitJoin(ts: seq<string>, sep: char)
    requires |ts| >= 1
    requires forall i :: 0 <= i < |ts| ==> sep !in ts[i]
    ensures Split(Join(ts, [sep]), sep) == ts
  {
    if |ts| == 1 {
      SplitNoSeparator(ts[0], sep);
    } else {
      SplitJoin(ts[1..], sep);
      SplitAfterPiece(ts[0], sep, Join(ts[1..], [sep]));
    }
  }
}
