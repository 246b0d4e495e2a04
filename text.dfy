/** The Python string operations the pipeline relies on: `str.strip`,
    slicing with a possibly negative stop, `sep.join`, the `repr` of a list
    of plain strings, ASCII `str.lower` and `str.count`. */
module Text {

  function Min(a: int, b: int): int { if a <= b then a else b }

  /** `str.isspace()` for one code point; a `\s` in a `str` regular
      expression matches exactly these. */
  predicate IsSpace(c: char) {
    var n := c as int;
    (9 <= n <= 13) || (28 <= n <= 32) || n == 0x85 || n == 0xA0 || n == 0x1680
    || (0x2000 <= n <= 0x200A) || n == 0x2028 || n == 0x2029 || n == 0x202F
    || n == 0x205F || n == 0x3000
  }

  predicate AllSpace(s: string) {
    forall i :: 0 <= i < |s| ==> IsSpace(s[i])
  }

  /** `s` occurs in `h` starting at index `i`. */
  predicate InfixAt(n: string, h: string, i: int) {
    0 <= i <= |h| - |n| && h[i..i + |n|] == n
  }

  /** Python's `n in h` for strings. */
  predicate IsInfix(n: string, h: string) {
    exists i :: 0 <= i <= |h| - |n| && InfixAt(n, h, i)
  }

  /** `r` occurs in `s` at `i`, with only whitespace before and after it. */
  predicate BetweenBlanks(r: string, s: string, i: int) {
    InfixAt(r, s, i) && AllSpace(s[..i]) && AllSpace(s[i + |r|..])
  }

  /** Removes the leading whitespace (`str.lstrip()`): what is left is a
      suffix that does not start with whitespace, and everything removed was
      whitespace. */
  function TrimStart(s: string): (r: string)
    ensures |r| <= |s| && r == s[|s| - |r|..]
    ensures AllSpace(s[..|s| - |r|])
    ensures r == [] || !IsSpace(r[0])
    decreases |s|
  {
    if |s| > 0 && IsSpace(s[0]) then
      var r := TrimStart(s[1..]);
      assert s[..|s| - |r|] == [s[0]] + s[1..][..|s| - 1 - |r|];
      r
    else s
  }

  /** Removes the trailing whitespace (`str.rstrip()`). */
  function TrimEnd(s: string): (r: string)
    ensures |r| <= |s| && r == s[..|r|]
    ensures AllSpace(s[|r|..])
    ensures r == [] || !IsSpace(r[|r| - 1])
    decreases |s|
  {
    if |s| > 0 && IsSpace(s[|s| - 1]) then
      var r := TrimEnd(s[..|s| - 1]);
      assert s[|r|..] == s[..|s| - 1][|r|..] + [s[|s| - 1]];
      r
    else s
  }

  /** `str.strip()`: `s` with whitespace removed from both ends and nothing
      else removed, so the result has no whitespace at either end and is
      empty exactly when `s` is all whitespace. */
  function Strip(s: string): (r: string)
    ensures IsInfix(r, s)
    ensures exists i :: BetweenBlanks(r, s, i)
    ensures r == [] || (!IsSpace(r[0]) && !IsSpace(r[|r| - 1]))
    ensures r == [] <==> AllSpace(s)
  {
    var t := TrimStart(s);
    var r := TrimEnd(t);
    StripIsInfix(s, t, r);
    StripEmptyIffBlank(s, t, r);
    StripEnds(s, t, r);
    r
  }

  lemma StripEnds(s: string, t: string, r: string)
    requires t == TrimStart(s) && r == TrimEnd(t)
    ensures r == [] || (!IsSpace(r[0]) && !IsSpace(r[|r| - 1]))
  {
    assert r != [] ==> r[0] == t[0];
  }

  /** What `str.strip` keeps sits between a blank prefix and a blank
      suffix of `s`. */
  lemma StripIsInfix(s: string, t: string, r: string)
    requires t == TrimStart(s) && r == TrimEnd(t)
    ensures IsInfix(r, s)
    ensures exists i :: BetweenBlanks(r, s, i)
  {
    var i := |s| - |t|;
    BlankFrame(s, i, t, |r|);
    assert BetweenBlanks(r, s, i);
  }

  /** A prefix `t[..m]` of the suffix `t == s[i..]` sits at `i` in `s`,
      and a blank tail of `t` is a blank tail of `s`. */
  lemma BlankFrame(s: string, i: nat, t: string, m: nat)
    requires i <= |s| && t == s[i..] && m <= |t|
    requires AllSpace(t[m..])
    ensures InfixAt(t[..m], s, i) && AllSpace(s[i + m..])
  {
    assert s[i..i + m] == t[..m];
    assert s[i + m..] == t[m..];
  }

  /** A prefix of a suffix occurs where the suffix starts. */
  lemma PrefixOfSuffix(s: string, i: nat, k: nat)
    requires i <= |s| && k <= |s| - i
    ensures InfixAt(s[i..][..k], s, i) && IsInfix(s[i..][..k], s)
  {
    var n := s[i..][..k];
    assert s[i..i + k] == n;
    assert 0 <= i <= |s| - |n| && InfixAt(n, s, i);
  }

  lemma StripEmptyIffBlank(s: string, t: string, r: string)
    requires t == TrimStart(s) && r == TrimEnd(t)
    ensures r == [] <==> AllSpace(s)
  {
    if t == [] {
      assert s[..|s|] == s;
    } else {
      assert t[0] == s[|s| - |t|];
      BlankTailAfterWord(t, |r|);
    }
  }

  /** A blank tail of a text that starts with a non-space is a proper
      tail. */
  lemma BlankTailAfterWord(t: string, j: nat)
    requires t != [] && !IsSpace(t[0])
    requires j <= |t| && AllSpace(t[j..])
    ensures j > 0
  {
    assert t[j..] == [] || t[j..][0] == t[j];
  }

  /** Text with no whitespace at either end is its own strip; so
      `str.strip` is idempotent. */
  lemma StripOfStripped(s: string)
    requires s == [] || (!IsSpace(s[0]) && !IsSpace(s[|s| - 1]))
    ensures Strip(s) == s
  {
    assert TrimStart(s) == s;
  }

  lemma {:induction false} TrimStartOfSpaces(ws: string, t: string)
    requires AllSpace(ws)
    ensures TrimStart(ws + t) == TrimStart(t)
    decreases |ws|
  {
    if ws == [] {
      assert ws + t == t;
    } else {
      assert (ws + t)[0] == ws[0];
      assert (ws + t)[1..] == ws[1..] + t;
      TrimStartOfSpaces(ws[1..], t);
    }
  }

  lemma {:induction false} TrimEndOfSpaces(t: string, ws: string)
    requires AllSpace(ws)
    ensures TrimEnd(t + ws) == TrimEnd(t)
    decreases |ws|
  {
    if ws == [] {
      assert t + ws == t;
    } else {
      assert (t + ws)[|t + ws| - 1] == ws[|ws| - 1];
      assert (t + ws)[..|t + ws| - 1] == t + ws[..|ws| - 1];
      TrimEndOfSpaces(t, ws[..|ws| - 1]);
    }
  }

  /** `s[:k]`: the first `k` items, or all but the last `-k` when `k` is
      negative, clamped to the sequence (so `s[:-0]` is `s[:0]`). */
  function PyPrefix<T>(s: seq<T>, k: int): (r: seq<T>)
    ensures |r| <= |s| && r == s[..|r|]
    ensures k >= 0 ==> |r| == Min(k, |s|)
    ensures k < 0 ==> |r| == (if |s| + k >= 0 then |s| + k else 0)
  {
    if k >= 0 then s[..Min(k, |s|)]
    else if |s| + k >= 0 then s[..|s| + k]
    else []
  }

  /** `s[k:]` for `k >= 0`, clamped to the sequence. */
  function PyDrop<T>(s: seq<T>, k: nat): seq<T> {
    s[Min(k, |s|)..]
  }

  /** `sep.join(xs)`. */
  function Join(sep: string, xs: seq<string>): string {
    if |xs| == 0 then ""
    else if |xs| == 1 then xs[0]
    else xs[0] + sep + Join(sep, xs[1..])
  }

  lemma InfixShift(n: string, p: string, h: string, i: int)
    requires InfixAt(n, h, i)
    ensures InfixAt(n, p + h, |p| + i)
  {
    assert (p + h)[|p| + i..|p| + i + |n|] == h[i..i + |n|];
  }

  lemma InfixPrefix(n: string, t: string)
    ensures InfixAt(n, n + t, 0)
  {
    assert (n + t)[..|n|] == n;
  }

  lemma InfixAppend(n: string, h: string, t: string, i: int)
    requires InfixAt(n, h, i)
    ensures InfixAt(n, h + t, i)
  {
    assert (h + t)[i..i + |n|] == h[i..i + |n|];
  }

  lemma InfixTrans(a: string, b: string, c: string, i: int, j: int)
    requires InfixAt(a, b, i) && InfixAt(b, c, j)
    ensures InfixAt(a, c, j + i)
  {
    forall k | 0 <= k < |a|
      ensures c[j + i + k] == a[k]
    {
      assert a[k] == b[i + k];
      assert b[i + k] == c[j + i + k];
    }
    assert c[j + i..j + i + |a|] == a;
  }

  lemma InfixTail(n: string, h: string, i: int)
    requires InfixAt(n, h, i) && i >= 1
    ensures InfixAt(n, h[1..], i - 1)
  {
    assert h[1..][i - 1..i - 1 + |n|] == h[i..i + |n|];
  }

  /** A piece of `x` is a piece of anything built around `x`. */
  lemma InfixWithin(n: string, a: string, x: string, b: string)
    requires IsInfix(n, x)
    ensures IsInfix(n, a + x + b)
  {
    var j :| 0 <= j <= |x| - |n| && InfixAt(n, x, j);
    InfixShift(n, a, x, j);
    InfixAppend(n, a + x, b, |a| + j);
  }

  lemma InfixWithinFive(n: string, a: string, x: string, b: string, y: string, c: string)
    requires IsInfix(n, x)
    ensures IsInfix(n, a + x + b + y + c)
  {
    InfixWithin(n, a, x, b + y + c);
    assert a + x + (b + y + c) == a + x + b + y + c;
  }

  /** Every joined item appears verbatim in the joined string. */
  lemma {:induction false} JoinContains(sep: string, xs: seq<string>, i: nat)
    requires i < |xs|
    ensures IsInfix(xs[i], Join(sep, xs))
    decreases |xs|
  {
    if |xs| == 1 {
      InfixPrefix(xs[0], []);
      assert xs[0] + [] == Join(sep, xs);
    } else if i == 0 {
      InfixPrefix(xs[0], sep + Join(sep, xs[1..]));
      assert xs[0] + (sep + Join(sep, xs[1..])) == Join(sep, xs);
    } else {
      JoinContains(sep, xs[1..], i - 1);
      var j :| 0 <= j <= |Join(sep, xs[1..])| - |xs[i]| && InfixAt(xs[i], Join(sep, xs[1..]), j);
      InfixShift(xs[i], xs[0] + sep, Join(sep, xs[1..]), j);
      assert (xs[0] + sep) + Join(sep, xs[1..]) == Join(sep, xs);
    }
  }

  /** Each string of `xs` between single quotes, as `repr` writes a string
      holding no quote, backslash or control character. */
  function Quoted(xs: seq<string>): (qs: seq<string>)
    ensures |qs| == |xs|
  {
    seq(|xs|, i requires 0 <= i < |xs| => "'" + xs[i] + "'")
  }

  /** `str(xs)` for a list of such strings, as an f-string prints it. */
  function ListRepr(xs: seq<string>): string {
    "[" + Join(", ", Quoted(xs)) + "]"
  }

  /** Every element of a printed list appears in the printed text. */
  lemma {:induction false} ListReprContains(xs: seq<string>, i: nat)
    requires i < |xs|
    ensures IsInfix(xs[i], ListRepr(xs))
  {
    var qs := Quoted(xs);
    var joined := Join(", ", qs);
    JoinContains(", ", qs, i);
    var j :| 0 <= j <= |joined| - |qs[i]| && InfixAt(qs[i], joined, j);
    assert InfixAt(xs[i], qs[i], 1) by { assert qs[i][1..1 + |xs[i]|] == xs[i]; }
    InfixTrans(xs[i], qs[i], joined, 1, j);
    InfixShift(xs[i], "[", joined, j + 1);
    InfixAppend(xs[i], "[" + joined, "]", 1 + j + 1);
    assert ListRepr(xs) == "[" + joined + "]";
  }

  /** `str.lower()` on one character, for the ASCII letters. */
  function LowerChar(c: char): (d: char)
    ensures 'A' <= c <= 'Z' ==> 'a' <= d <= 'z' && d as int == c as int + 32
    ensures !('A' <= c <= 'Z') ==> d == c
  {
    if 'A' <= c <= 'Z' then (c as int + 32) as char else c
  }

  function Lower(s: string): (r: string)
    ensures |r| == |s|
    ensures forall i :: 0 <= i < |s| ==> r[i] == LowerChar(s[i])
  {
    seq(|s|, i requires 0 <= i < |s| => LowerChar(s[i]))
  }

  /** Lower-casing twice changes nothing. */
  lemma LowerIdempotent(s: string)
    ensures Lower(Lower(s)) == Lower(s)
  {
    assert forall i :: 0 <= i < |s| ==> LowerChar(LowerChar(s[i])) == LowerChar(s[i]);
  }

  /** `h.count(n)`: non-overlapping occurrences, found left to right; the
      empty needle is counted at every position, as Python does. */
  function Count(h: string, n: string): nat
    decreases |h|
  {
    if n == [] then |h| + 1
    else if |h| < |n| then 0
    else if h[..|n|] == n then 1 + Count(h[|n|..], n)
    else Count(h[1..], n)
  }

  /** A non-empty needle is counted zero times exactly when it does not
      occur. */
  lemma {:induction false} CountZeroIffAbsent(h: string, n: string)
    requires n != []
    ensures Count(h, n) == 0 <==> !IsInfix(n, h)
    decreases |h|
  {
    if |h| < |n| {
    } else if h[..|n|] == n {
      assert InfixAt(n, h, 0);
    } else {
      CountZeroIffAbsent(h[1..], n);
      InfixOfTailIff(n, h);
    }
  }

  /** A needle that is not at the start of `h` occurs in `h` exactly when
      it occurs in `h[1..]`. */
  lemma InfixOfTailIff(n: string, h: string)
    requires |h| >= |n| > 0 && h[..|n|] != n
    ensures IsInfix(n, h) <==> IsInfix(n, h[1..])
  {
    if IsInfix(n, h) {
      var i :| 0 <= i <= |h| - |n| && InfixAt(n, h, i);
      assert i != 0;
      InfixTail(n, h, i);
    }
    if IsInfix(n, h[1..]) {
      var i :| 0 <= i <= |h[1..]| - |n| && InfixAt(n, h[1..], i);
      InfixShift(n, [h[0]], h[1..], i);
      assert [h[0]] + h[1..] == h;
    }
  }

  lemma FitsOneMore(c: nat, m: nat, rest: nat)
    requires c * m <= rest
    ensures (1 + c) * m <= rest + m
  {
  }

  /** Occurrences are disjoint, so they fit in the text. */
  lemma {:induction false} CountFits(h: string, n: string)
    requires n != []
    ensures Count(h, n) * |n| <= |h|
    decreases |h|
  {
    if |h| >= |n| {
      if h[..|n|] == n {
        var t := h[|n|..];
        CountFits(t, n);
        assert Count(h, n) == 1 + Count(t, n);
        FitsOneMore(Count(t, n), |n|, |t|);
      } else {
        CountFits(h[1..], n);
      }
    }
  }
}
