/** The Python `str` operations the datasheet tooling is built from, with
    CPython's semantics for the arguments the tooling passes them:
    `find`, `count` (non-overlapping), `partition`, `strip`, `split`, `join`,
    `replace` (global, left to right) and `splitlines`. */
module TextOps {
  import opened Wrappers

  /** `p` occurs in `s` starting at index `i`. */
  predicate OccursAt(s: string, p: string, i: int)
  {
    0 <= i && i + |p| <= |s| && s[i..i + |p|] == p
  }

  /** Python's `p in s`. */
  predicate Contains(s: string, p: string)
  {
    exists i :: 0 <= i <= |s| && OccursAt(s, p, i)
  }

  /** Python's `s.startswith(p)`. */
  predicate StartsWith(s: string, p: string)
  {
    |p| <= |s| && s[..|p|] == p
  }

  /** Python's `s.endswith(p)`. */
  predicate EndsWith(s: string, p: string)
  {
    |p| <= |s| && s[|s| - |p|..] == p
  }

  /** A string followed by more text starts with it. */
  lemma StartsWithMore(s: string, p: string, t: string)
    requires StartsWith(s, p)
    ensures StartsWith(s + t, p)
  {
    assert (s + t)[..|p|] == s[..|p|];
  }

  /** A concatenation ends with its last part. */
  lemma EndsWithLast(s: string, t: string)
    ensures EndsWith(s + t, t)
  {
    assert (s + t)[|s + t| - |t|..] == t;
  }

  /** Python's `s.find(p, k)`: the first occurrence at or after `k`. */
  function FindFrom(s: string, p: string, k: nat): (r: Option<nat>)
    ensures r.Some? ==> k <= r.value && OccursAt(s, p, r.value)
    ensures r.Some? ==> forall j :: k <= j < r.value ==> !OccursAt(s, p, j)
    ensures r.None? ==> forall j :: k <= j ==> !OccursAt(s, p, j)
    decreases |s| - k
  {
    if k + |p| > |s| then None
    else if s[k..k + |p|] == p then Some(k)
    else FindFrom(s, p, k + 1)
  }

  /** Python's `s.find(p)`, with `None` for -1. */
  function Find(s: string, p: string): (r: Option<nat>)
    ensures r.Some? ==> OccursAt(s, p, r.value)
    ensures r.Some? ==> forall j :: 0 <= j < r.value ==> !OccursAt(s, p, j)
    ensures r.None? <==> !Contains(s, p)
  {
    FindFrom(s, p, 0)
  }

  /** Python's `s.find(p)` as an integer: -1 when `p` does not occur. */
  function PyFind(s: string, p: string): int
  {
    match Find(s, p)
    case None => -1
    case Some(i) => i
  }

  /** A Python slice bound `i` on a string of length `n`: negative bounds count
      from the end, and bounds are clamped to `0..n`. */
  function PyIndex(i: int, n: nat): (k: nat)
    ensures k <= n
  {
    if i < 0 then (if i + n < 0 then 0 else i + n)
    else if i > n then n
    else i
  }

  /** Python's `s[a:b]`: empty when the clamped start is not before the clamped end. */
  function PySlice(s: string, a: int, b: int): string
  {
    var i := PyIndex(a, |s|);
    var j := PyIndex(b, |s|);
    if i < j then s[i..j] else []
  }

  /** `i` is the first index at which `p` occurs in `s`. */
  predicate IsFirst(s: string, p: string, i: int)
  {
    OccursAt(s, p, i) && forall j :: 0 <= j < i ==> !OccursAt(s, p, j)
  }

  /** The first occurrence is what `find` returns. */
  lemma FindIsFirst(s: string, p: string, i: int)
    requires IsFirst(s, p, i)
    ensures Find(s, p) == Some(i)
  {
    assert Contains(s, p);
  }

  /** An occurrence at `i` with none in `[k, i)` is what `find(p, k)` returns. */
  lemma FindFromIsFirst(s: string, p: string, k: nat, i: int)
    requires k <= i && OccursAt(s, p, i)
    requires forall j :: k <= j < i ==> !OccursAt(s, p, j)
    ensures FindFrom(s, p, k) == Some(i)
  {
  }

  /** `find(p, k)` succeeds exactly when `p` occurs at or after `k`. */
  lemma FindFromSome(s: string, p: string, k: nat)
    ensures FindFrom(s, p, k).Some? <==> exists j :: k <= j <= |s| && OccursAt(s, p, j)
  {
  }

  /** Python's `s.count(p)` for a non-empty `p`: occurrences found left to right,
      each search resuming after the previous match. */
  function Count(s: string, p: string): nat
    requires p != []
    decreases |s|
  {
    match Find(s, p)
    case None => 0
    case Some(i) => 1 + Count(s[i + |p|..], p)
  }

  /** Python's `s.partition(sep)`. */
  function Partition(s: string, sep: string): (r: (string, string, string))
    requires sep != []
    ensures r.0 + r.1 + r.2 == s
  {
    match Find(s, sep)
    case None => (s, [], [])
    case Some(i) =>
      assert s == s[..i] + s[i..i + |sep|] + s[i + |sep|..];
      (s[..i], sep, s[i + |sep|..])
  }

  /** `partition` at the first occurrence `i` of the separator. */
  lemma PartitionAt(s: string, sep: string, i: nat)
    requires sep != [] && Find(s, sep) == Some(i)
    ensures Partition(s, sep) == (s[..i], sep, s[i + |sep|..])
  {
  }

  /** Cutting at an occurrence of `p`: the prefix ending with it and the suffix
      starting with it. */
  lemma SliceAtOccurrence(s: string, p: string, i: int)
    requires OccursAt(s, p, i)
    ensures s[..i] + p == s[..i + |p|]
    ensures p + s[i + |p|..] == s[i..]
  {
  }

  /** A text is what comes before its first occurrence of `p`, `p`, and what
      comes after; the part before holds no `p`. */
  lemma AroundFirst(s: string, p: string, i: nat)
    requires p != [] && Find(s, p) == Some(i)
    ensures s == s[..i] + p + s[i + |p|..]
    ensures !Contains(s[..i], p)
  {
    SliceAtOccurrence(s, p, i);
    assert s == s[..i + |p|] + s[i + |p|..];
    if Contains(s[..i], p) {
      var k :| 0 <= k <= i && OccursAt(s[..i], p, k);
      OccursPrefix(s, i, p, k);
    }
  }

  /** The characters Python's `str.isspace` accepts, which `strip()` removes. */
  predicate IsSpace(c: char)
  {
    || c == ' ' || c == '\t' || c == '\n' || c == '\r' || c == '\U{B}' || c == '\U{C}'
    || ('\U{1C}' <= c <= '\U{1F}') || c == '\U{85}' || c == '\U{A0}' || c == '\U{1680}'
    || ('\U{2000}' <= c <= '\U{200A}') || c == '\U{2028}' || c == '\U{2029}'
    || c == '\U{202F}' || c == '\U{205F}' || c == '\U{3000}'
  }

  predicate AllSpace(s: string)
  {
    forall i :: 0 <= i < |s| ==> IsSpace(s[i])
  }

  /** Neither end of `s` is whitespace. */
  predicate Stripped(s: string)
  {
    s == [] || (!IsSpace(s[0]) && !IsSpace(s[|s| - 1]))
  }

  /** Python's `s.lstrip()`. */
  function LStrip(s: string): string
  {
    if s != [] && IsSpace(s[0]) then LStrip(s[1..]) else s
  }

  /** Python's `s.rstrip()`. */
  function RStrip(s: string): string
  {
    if s != [] && IsSpace(s[|s| - 1]) then RStrip(s[..|s| - 1]) else s
  }

  /** `lstrip` keeps a suffix that does not start with whitespace. */
  lemma {:induction false} LStripSuffix(s: string)
    ensures |LStrip(s)| <= |s| && LStrip(s) == s[|s| - |LStrip(s)|..]
    ensures LStrip(s) == [] || !IsSpace(LStrip(s)[0])
    decreases |s|
  {
    if s != [] && IsSpace(s[0]) {
      LStripSuffix(s[1..]);
      assert s[1..][|s| - 1 - |LStrip(s)|..] == s[|s| - |LStrip(s)|..];
    }
  }

  /** `rstrip` keeps a prefix that does not end with whitespace. */
  lemma {:induction false} RStripPrefix(s: string)
    ensures |RStrip(s)| <= |s| && RStrip(s) == s[..|RStrip(s)|]
    ensures RStrip(s) == [] || !IsSpace(RStrip(s)[|RStrip(s)| - 1])
    decreases |s|
  {
    if s != [] && IsSpace(s[|s| - 1]) {
      RStripPrefix(s[..|s| - 1]);
    }
  }

  /** `lstrip` removes only whitespace. */
  lemma {:induction false} LStripRemovesSpace(s: string)
    ensures |LStrip(s)| <= |s| && AllSpace(s[..|s| - |LStrip(s)|])
    decreases |s|
  {
    if s != [] && IsSpace(s[0]) {
      var t := s[1..];
      LStripRemovesSpace(t);
      assert LStrip(s) == LStrip(t);
      var n := |s| - |LStrip(s)|;
      forall i | 0 <= i < n
        ensures IsSpace(s[..n][i])
      {
        if i > 0 {
          assert s[..n][i] == t[..n - 1][i - 1];
        }
      }
    }
  }

  /** `rstrip` removes only whitespace. */
  lemma {:induction false} RStripRemovesSpace(s: string)
    ensures |RStrip(s)| <= |s| && AllSpace(s[|RStrip(s)|..])
    decreases |s|
  {
    RStripPrefix(s);
    if s != [] && IsSpace(s[|s| - 1]) {
      RStripRemovesSpace(s[..|s| - 1]);
      RStripPrefix(s[..|s| - 1]);
      var n := |RStrip(s)|;
      assert s[n..] == s[..|s| - 1][n..] + [s[|s| - 1]];
    }
  }

  /** Python's `s.strip()`: the widest slice with whitespace on neither end. */
  function Strip(s: string): string
  {
    RStrip(LStrip(s))
  }

  /** The result of `strip` has whitespace on neither end. */
  lemma StripIsStripped(s: string)
    ensures Stripped(Strip(s))
  {
    LStripSuffix(s);
    RStripPrefix(LStrip(s));
  }

  /** What `strip` removes is whitespace at either end, and it keeps the rest. */
  lemma StripSlice(s: string)
    ensures exists i, j :: 0 <= i <= j <= |s| && Strip(s) == s[i..j] && AllSpace(s[..i]) && AllSpace(s[j..])
  {
    var l := LStrip(s);
    var r := RStrip(l);
    LStripSuffix(s);
    RStripPrefix(l);
    LStripRemovesSpace(s);
    RStripRemovesSpace(l);
    assert r == s[|s| - |l|..][..|r|] == s[|s| - |l|..|s| - |l| + |r|];
    assert s[|s| - |l| + |r|..] == l[|r|..];
  }

  lemma {:induction false} LStripSpaces(w: string, x: string)
    requires AllSpace(w)
    ensures LStrip(w + x) == LStrip(x)
    decreases |w|
  {
    if w != [] {
      assert (w + x)[0] == w[0] && IsSpace(w[0]);
      assert (w + x)[1..] == w[1..] + x;
      assert LStrip(w + x) == LStrip(w[1..] + x);
      LStripSpaces(w[1..], x);
    } else {
      assert w + x == x;
    }
  }

  lemma {:induction false} RStripSpaces(x: string, w: string)
    requires AllSpace(w)
    ensures RStrip(x + w) == RStrip(x)
    decreases |w|
  {
    if w != [] {
      assert (x + w)[|x + w| - 1] == w[|w| - 1] && IsSpace(w[|w| - 1]);
      assert (x + w)[..|x + w| - 1] == x + w[..|w| - 1];
      assert RStrip(x + w) == RStrip(x + w[..|w| - 1]);
      RStripSpaces(x, w[..|w| - 1]);
    } else {
      assert x + w == x;
    }
  }

  /** Stripping text that is padded with whitespace around an already stripped
      core gives back the core. */
  lemma StripPadded(w1: string, q: string, w2: string)
    requires AllSpace(w1) && AllSpace(w2) && Stripped(q)
    ensures Strip(w1 + q + w2) == q
  {
    assert w1 + q + w2 == w1 + (q + w2);
    LStripSpaces(w1, q + w2);
    if q == [] {
      assert q + w2 == w2;
      assert LStrip(w2) == [] by { LStripSpaces(w2, []); assert w2 + [] == w2; }
    } else {
      assert LStrip(q + w2) == q + w2;
      RStripSpaces(q, w2);
    }
  }
  /** A stripped text on a line of its own strips back to itself. */
  lemma StripLine(q: string)
    requires Stripped(q)
    ensures Strip("\n" + q + "\n") == q
  {
    assert AllSpace("\n");
    StripPadded("\n", q, "\n");
  }


  /** `strip` is idempotent. */
  lemma StripIdempotent(s: string)
    ensures Strip(Strip(s)) == Strip(s)
  {
    var q := Strip(s);
    StripIsStripped(s);
    StripPadded([], q, []);
    assert [] + q + [] == q;
  }

  /** Python's `s.replace(pat, rep)` for a non-empty `pat`: every
      non-overlapping occurrence, left to right. */
  function Replace(s: string, pat: string, rep: string): string
    requires pat != []
    decreases |s|
  {
    match Find(s, pat)
    case None => s
    case Some(i) => s[..i] + rep + Replace(s[i + |pat|..], pat, rep)
  }

  /** Python's `s.split(sep)` for a non-empty `sep`. */
  function Split(s: string, sep: string): (parts: seq<string>)
    requires sep != []
    ensures |parts| >= 1
    decreases |s|
  {
    match Find(s, sep)
    case None => [s]
    case Some(i) => [s[..i]] + Split(s[i + |sep|..], sep)
  }

  /** Python's `s.split(sep, maxsplit)` for a non-empty `sep`: at most
      `maxsplit` splits, the remainder left whole in the last part. */
  function SplitMax(s: string, sep: string, maxsplit: nat): (parts: seq<string>)
    requires sep != []
    ensures 1 <= |parts| <= maxsplit + 1
    decreases maxsplit
  {
    if maxsplit == 0 then [s]
    else
      match Find(s, sep)
      case None => [s]
      case Some(i) => [s[..i]] + SplitMax(s[i + |sep|..], sep, maxsplit - 1)
  }

  /** Python's `sep.join(parts)`. */
  function Join(parts: seq<string>, sep: string): string
  {
    if |parts| == 0 then []
    else if |parts| == 1 then parts[0]
    else parts[0] + sep + Join(parts[1..], sep)
  }

  /** An occurrence in a suffix is an occurrence in the whole, shifted. */
  lemma OccursShift(s: string, m: nat, p: string, j: int)
    requires m <= |s|
    ensures OccursAt(s[m..], p, j) <==> (j >= 0 && OccursAt(s, p, j + m))
  {
    if j >= 0 && j + |p| <= |s| - m {
      assert s[m..][j..j + |p|] == s[j + m..j + m + |p|];
    }
  }

  /** An occurrence in a prefix is an occurrence in the whole. */
  lemma OccursPrefix(s: string, m: nat, p: string, j: int)
    requires m <= |s|
    ensures OccursAt(s[..m], p, j) <==> (OccursAt(s, p, j) && j + |p| <= m)
  {
    if 0 <= j && j + |p| <= m {
      assert s[..m][j..j + |p|] == s[j..j + |p|];
    }
  }

  /** `count(s, p) == 1` exactly when `p` occurs and no occurrence starts at or
      after the end of the first one. */
  lemma CountOnce(s: string, p: string)
    requires p != []
    ensures Count(s, p) == 1 <==>
      (Find(s, p).Some? && forall j :: Find(s, p).value + |p| <= j ==> !OccursAt(s, p, j))
  {
    var f := Find(s, p);
    if f.Some? {
      var m := f.value + |p|;
      var rest := s[m..];
      assert Count(s, p) == 1 + Count(rest, p);
      if Count(rest, p) == 0 {
        NoneAfter(s, p, m);
      } else {
        SomeAfter(s, p, m);
      }
    }
  }

  /** No occurrence in the suffix from `m` means none in `s` from `m` on. */
  lemma NoneAfter(s: string, p: string, m: nat)
    requires p != [] && m <= |s| && Count(s[m..], p) == 0
    ensures forall j :: m <= j ==> !OccursAt(s, p, j)
  {
    assert Find(s[m..], p).None?;
    forall j | m <= j
      ensures !OccursAt(s, p, j)
    {
      OccursShift(s, m, p, j - m);
    }
  }

  /** An occurrence in the suffix from `m` is an occurrence in `s` from `m` on. */
  lemma SomeAfter(s: string, p: string, m: nat)
    requires p != [] && m <= |s| && Count(s[m..], p) != 0
    ensures exists j :: m <= j && OccursAt(s, p, j)
  {
    var k := Find(s[m..], p).value;
    OccursShift(s, m, p, k);
    assert OccursAt(s, p, k + m);
  }

  /** Finding in a suffix that starts at or before the first occurrence. */
  lemma FindSuffix(s: string, p: string, m: nat, f: nat)
    requires m <= f && Find(s, p) == Some(f)
    ensures Find(s[m..], p) == Some(f - m)
  {
    OccursShift(s, m, p, f - m);
    forall j | 0 <= j < f - m
      ensures !OccursAt(s[m..], p, j)
    {
      OccursShift(s, m, p, j);
    }
  }

  /** A pattern free of line feeds cannot straddle a line feed: an occurrence in
      `x + "\n" + y` lies inside `x` or inside `y`. */
  lemma NoStraddle(x: string, y: string, p: string, i: int)
    requires '\n' !in p
    requires OccursAt(x + "\n" + y, p, i)
    ensures OccursAt(x, p, i) || OccursAt(y, p, i - |x| - 1)
  {
    var s := x + "\n" + y;
    assert s[|x|] == '\n';
    CharOfOccurrence(s, p, i, |x| - i);
    assert !(i <= |x| < i + |p|);
    if i + |p| <= |x| {
      assert s[..|x|] == x;
      OccursPrefix(s, |x|, p, i);
    } else {
      assert s[|x| + 1..] == y;
      OccursShift(s, |x| + 1, p, i - |x| - 1);
    }
  }

  /** A pattern free of line feeds that does not occur in `q` occurs in
      `a + "\n" + q + "\n" + b` only inside `a` or inside `b`. */
  lemma OccursAroundLine(a: string, q: string, b: string, p: string, i: int)
    requires '\n' !in p && !Contains(q, p)
    requires OccursAt(a + "\n" + q + "\n" + b, p, i)
    ensures OccursAt(a, p, i) || OccursAt(b, p, i - |a| - |q| - 2)
  {
    assert a + "\n" + q + "\n" + b == a + "\n" + (q + "\n" + b);
    NoStraddle(a, q + "\n" + b, p, i);
    if !OccursAt(a, p, i) {
      NoStraddle(q, b, p, i - |a| - 1);
      OccursContains(q, p, i - |a| - 1);
    }
  }

  lemma OccursContains(s: string, p: string, i: int)
    ensures OccursAt(s, p, i) ==> Contains(s, p)
  {
  }

  lemma CharOfOccurrence(s: string, p: string, i: int, k: int)
    ensures OccursAt(s, p, i) && 0 <= k < |p| ==> p[k] == s[i + k]
  {
    if OccursAt(s, p, i) && 0 <= k < |p| {
      assert p[k] == s[i..i + |p|][k];
    }
  }

  /** Joining the parts of a split gives back the string. */
  lemma {:induction false} JoinSplit(s: string, sep: string)
    requires sep != []
    ensures Join(Split(s, sep), sep) == s
    decreases |s|
  {
    if Find(s, sep).Some? {
      var i := Find(s, sep).value;
      var rest := s[i + |sep|..];
      JoinSplit(rest, sep);
      var parts := Split(s, sep);
      assert parts == [s[..i]] + Split(rest, sep);
      assert parts[0] == s[..i] && parts[1..] == Split(rest, sep);
      assert s == s[..i] + sep + rest by {
        assert s[i..i + |sep|] == sep;
        assert s == s[..i] + s[i..i + |sep|] + s[i + |sep|..];
      }
      calc {
        Join(parts, sep);
        parts[0] + sep + Join(parts[1..], sep);
        s[..i] + sep + rest;
      }
    }
  }

  /** No part of a split contains the separator. */
  lemma {:induction false} SplitPartsFree(s: string, sep: string)
    requires sep != []
    ensures forall k :: 0 <= k < |Split(s, sep)| ==> !Contains(Split(s, sep)[k], sep)
    decreases |s|
  {
    match Find(s, sep)
    case None =>
    case Some(i) =>
      var rest := s[i + |sep|..];
      SplitPartsFree(rest, sep);
      var parts := Split(s, sep);
      assert parts == [s[..i]] + Split(rest, sep);
      if Contains(s[..i], sep) {
        var j :| OccursAt(s[..i], sep, j);
        OccursPrefix(s, i, sep, j);
      }
      forall k | 0 <= k < |parts|
        ensures !Contains(parts[k], sep)
      {
        if k > 0 {
          assert parts[k] == Split(rest, sep)[k - 1];
        }
      }
  }

  /** A split has one part more than the separator has occurrences. */
  lemma {:induction false} SplitCount(s: string, sep: string)
    requires sep != []
    ensures |Split(s, sep)| == Count(s, sep) + 1
    decreases |s|
  {
    var f := Find(s, sep);
    if f.Some? {
      var rest := s[f.value + |sep|..];
      SplitCount(rest, sep);
      assert Split(s, sep) == [s[..f.value]] + Split(rest, sep);
      assert Count(s, sep) == 1 + Count(rest, sep);
    }
  }

  /** The characters Python's `str.splitlines` treats as line boundaries. */
  predicate IsLineBreak(c: char)
  {
    || c == '\n' || c == '\r' || c == '\U{B}' || c == '\U{C}'
    || ('\U{1C}' <= c <= '\U{1E}') || c == '\U{85}' || c == '\U{2028}' || c == '\U{2029}'
  }

  /** The first line boundary at or after `k`, or `|s|`. */
  function FirstBreak(s: string, k: nat): (i: nat)
    requires k <= |s|
    ensures k <= i <= |s|
    ensures i < |s| ==> IsLineBreak(s[i])
    ensures forall j :: k <= j < i ==> !IsLineBreak(s[j])
    decreases |s| - k
  {
    if k == |s| || IsLineBreak(s[k]) then k else FirstBreak(s, k + 1)
  }

  /** Python's `s.splitlines()`: lines without their boundaries, `"\r\n"`
      counting as one boundary, and no empty last line after a final boundary. */
  function SplitLines(s: string): (lines: seq<string>)
    ensures forall k, j :: 0 <= k < |lines| && 0 <= j < |lines[k]| ==> !IsLineBreak(lines[k][j])
    decreases |s|
  {
    if s == [] then []
    else
      var i := FirstBreak(s, 0);
      if i == |s| then [s]
      else
        var w := if s[i] == '\r' && i + 1 < |s| && s[i + 1] == '\n' then 2 else 1;
        var rest := SplitLines(s[i + w..]);
        assert forall j :: 0 <= j < |s[..i]| ==> !IsLineBreak(s[..i][j]);
        [s[..i]] + rest
  }

  /** Python's `c * n` for a one-character string: empty when `n <= 0`. */
  function Repeat(c: char, n: int): (r: string)
    ensures |r| == if n <= 0 then 0 else n
    ensures forall j :: 0 <= j < |r| ==> r[j] == c
    decreases n
  {
    if n <= 0 then [] else [c] + Repeat(c, n - 1)
  }

  /** Python's `s.count(c)` for a single character. */
  function CountChar(s: string, c: char): nat
  {
    if s == [] then 0 else (if s[0] == c then 1 else 0) + CountChar(s[1..], c)
  }

  /** The decimal digits of `n`, as Python's `str(n)` writes them. */
  function NatToString(n: nat): (r: string)
    ensures |r| >= 1
    ensures forall j :: 0 <= j < |r| ==> '0' <= r[j] <= '9'
    decreases n
  {
    if n < 10 then [Digit(n)] else NatToString(n / 10) + [Digit(n % 10)]
  }

  function Digit(d: nat): (c: char)
    requires d < 10
    ensures '0' <= c <= '9'
  {
    ('0' as int + d) as char
  }
}
