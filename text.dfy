/** String primitives of the JavaScript engine that the translator relies on:
    whitespace as `trim()` and the regular-expression class `\s` see it,
    `startsWith`, `endsWith`, `includes`, `split`, `substring`, ASCII case
    folding and decimal rendering of array indices. */
module Text {

  /** The characters `String.prototype.trim` removes and `\s` matches:
      WhiteSpace and LineTerminator of ECMAScript. */
  predicate IsJsSpace(c: char)
  {
    c == '\t' || c == '\n' || c == '\U{000B}' || c == '\U{000C}' || c == '\r' || c == ' '
    || c == '\U{00A0}' || c == '\U{1680}' || ('\U{2000}' <= c <= '\U{200A}')
    || c == '\U{2028}' || c == '\U{2029}' || c == '\U{202F}' || c == '\U{205F}'
    || c == '\U{3000}' || c == '\U{FEFF}'
  }

  /** The line terminators that the regular-expression `.` does not match. */
  predicate IsLineTerminator(c: char)
  {
    c == '\n' || c == '\r' || c == '\U{2028}' || c == '\U{2029}'
  }

  predicate IsDigit(c: char)
  {
    '0' <= c <= '9'
  }

  /** The regular-expression class `\w` (no unicode flag): `[A-Za-z0-9_]`. */
  predicate IsWordChar(c: char)
  {
    ('A' <= c <= 'Z') || ('a' <= c <= 'z') || IsDigit(c) || c == '_'
  }

  /** A non-empty run of `\w` characters. */
  predicate IsWord(s: string)
  {
    s != [] && forall i :: 0 <= i < |s| ==> IsWordChar(s[i])
  }

  predicate AllSpace(s: string)
  {
    forall i :: 0 <= i < |s| ==> IsJsSpace(s[i])
  }

  /** Length of the longest prefix of `s` whose characters all satisfy `p`. */
  function Span(s: string, p: char -> bool): (n: nat)
    ensures n <= |s|
    ensures forall i :: 0 <= i < n ==> p(s[i])
    ensures n < |s| ==> !p(s[n])
  {
    if s != [] && p(s[0]) then 1 + Span(s[1..], p) else 0
  }

  /** A prefix made of characters satisfying `p`, followed by one that does
      not (or by nothing), is exactly the span. */
  lemma {:induction false} SpanAfter(x: string, y: string, p: char -> bool)
    requires forall i :: 0 <= i < |x| ==> p(x[i])
    requires y == [] || !p(y[0])
    ensures Span(x + y, p) == |x|
  {
    if x != [] {
      assert (x + y)[1..] == x[1..] + y;
      SpanAfter(x[1..], y, p);
    } else {
      assert x + y == y;
    }
  }

  /** Length of the longest suffix of `s` whose characters all satisfy `p`. */
  function SpanBack(s: string, p: char -> bool): (n: nat)
    ensures n <= |s|
    ensures forall i :: |s| - n <= i < |s| ==> p(s[i])
    ensures n < |s| ==> !p(s[|s| - n - 1])
  {
    if s != [] && p(s[|s| - 1]) then 1 + SpanBack(s[..|s| - 1], p) else 0
  }

  /** `s.trimStart()` */
  function TrimStart(s: string): (r: string)
    ensures |r| <= |s| && r == s[|s| - |r|..]
    ensures AllSpace(s[..|s| - |r|])
    ensures r == [] || !IsJsSpace(r[0])
  {
    s[Span(s, IsJsSpace)..]
  }

  /** `s.trimEnd()` */
  function TrimEnd(s: string): (r: string)
    ensures |r| <= |s| && r == s[..|r|]
    ensures AllSpace(s[|r|..])
    ensures r == [] || !IsJsSpace(r[|r| - 1])
  {
    s[..|s| - SpanBack(s, IsJsSpace)]
  }

  predicate IsTrimmed(s: string)
  {
    s == [] || (!IsJsSpace(s[0]) && !IsJsSpace(s[|s| - 1]))
  }

  lemma ConcatTrimmed(x: string, y: string)
    requires x != [] && y != [] && !IsJsSpace(x[0]) && !IsJsSpace(y[|y| - 1])
    ensures IsTrimmed(x + y)
  {
  }

  /** `s.trim()`: the slice of `s` left once leading and trailing white space is gone. */
  function Trim(s: string): (r: string)
    ensures IsTrimmed(r)
  {
    TrimEnd(TrimStart(s))
  }

  /** The trimmed string is a slice of `s` with only white space around it. */
  lemma TrimSlice(s: string)
    ensures var r := Trim(s);
      exists a :: 0 <= a <= |s| - |r| && r == s[a..a + |r|]
        && AllSpace(s[..a]) && AllSpace(s[a + |r|..])
  {
    var t := TrimStart(s);
    var r := TrimEnd(t);
    var a := |s| - |t|;
    assert r == s[a..a + |r|];
    assert s[a + |r|..] == t[|r|..];
    assert AllSpace(s[..a]) && AllSpace(s[a + |r|..]);
  }

  lemma TrimEmptyIffAllSpace(s: string)
    ensures Trim(s) == [] <==> AllSpace(s)
  {
    var t := TrimStart(s);
    assert s[..|s|] == s;
    assert t[0..] == t;
    if t != [] {
      assert !IsJsSpace(t[0]);
    }
  }

  /** Trimming a string that has no surrounding white space changes nothing. */
  lemma {:induction false} TrimOfTrimmed(s: string)
    requires IsTrimmed(s)
    ensures Trim(s) == s
  {
    if s != [] {
      assert TrimStart(s) == s;
      assert TrimEnd(s) == s;
    }
  }

  /** `s.startsWith(p)` */
  predicate StartsWith(s: string, p: string)
  {
    |p| <= |s| && s[..|p|] == p
  }

  /** `s.endsWith(p)` */
  predicate EndsWith(s: string, p: string)
  {
    |p| <= |s| && s[|s| - |p|..] == p
  }

  predicate OccursAt(s: string, t: string, i: int)
  {
    0 <= i && i + |t| <= |s| && s[i..i + |t|] == t
  }

  /** First index at which `t` occurs in `s` at or after `from`, or -1. */
  function IndexFrom(s: string, t: string, from: nat): (k: int)
    ensures k == -1 || (from <= k && OccursAt(s, t, k))
    decreases |s| - from
  {
    if from + |t| > |s| then -1
    else if s[from..from + |t|] == t then from
    else IndexFrom(s, t, from + 1)
  }

  /** No occurrence at or after `from` comes before the one found. */
  lemma {:induction false} IndexFromFirst(s: string, t: string, from: nat)
    ensures var k := IndexFrom(s, t, from);
      forall j :: from <= j && (k == -1 || j < k) ==> !OccursAt(s, t, j)
    decreases |s| - from
  {
    if from + |t| <= |s| && s[from..from + |t|] != t {
      IndexFromFirst(s, t, from + 1);
    }
  }

  /** `s.indexOf(t)` */
  function IndexOf(s: string, t: string): (k: int)
    ensures k == -1 || OccursAt(s, t, k)
  {
    IndexFrom(s, t, 0)
  }

  /** `indexOf` finds the first occurrence, and -1 only when there is none. */
  lemma IndexOfFirst(s: string, t: string)
    ensures var k := IndexOf(s, t);
      forall j :: 0 <= j && (k == -1 || j < k) ==> !OccursAt(s, t, j)
  {
    IndexFromFirst(s, t, 0);
  }

  /** `s.includes(t)` */
  predicate Contains(s: string, t: string)
  {
    IndexOf(s, t) >= 0
  }

  lemma ContainsIff(s: string, t: string)
    ensures Contains(s, t) <==> exists i :: OccursAt(s, t, i)
  {
    IndexOfFirst(s, t);
  }

  /** A string without the first character of `t` does not include `t`. */
  lemma NotContainsHead(s: string, t: string)
    requires t != [] && t[0] !in s
    ensures !Contains(s, t)
  {
    ContainsIff(s, t);
    forall i | 0 <= i < |s| ensures !OccursAt(s, t, i) {
      if i + |t| <= |s| {
        assert s[i..i + |t|][0] == s[i];
      }
    }
  }

  function Join(xs: seq<string>, sep: string): (r: string)
  {
    if xs == [] then ""
    else if |xs| == 1 then xs[0]
    else xs[0] + sep + Join(xs[1..], sep)
  }

  /** `s.split(sep)` for a non-empty separator. */
  function Split(s: string, sep: string): (r: seq<string>)
    requires sep != []
    ensures |r| >= 1
    ensures |r| >= 2 <==> Contains(s, sep)
    decreases |s|
  {
    var k := IndexOf(s, sep);
    if k < 0 then [s]
    else [s[..k]] + Split(s[k + |sep|..], sep)
  }

  /** Every piece of a split is free of the separator, and joining the
      pieces with the separator gives the string back. */
  lemma {:induction false} SplitPieces(s: string, sep: string)
    requires sep != []
    ensures Join(Split(s, sep), sep) == s
    ensures forall i :: 0 <= i < |Split(s, sep)| ==> !Contains(Split(s, sep)[i], sep)
    decreases |s|
  {
    var k := IndexOf(s, sep);
    IndexOfFirst(s, sep);
    if k >= 0 {
      var head := s[..k];
      assert !Contains(head, sep) by {
        ContainsIff(head, sep);
        forall j | 0 <= j ensures !OccursAt(head, sep, j) {
          if j + |sep| <= |head| {
            assert s[j..j + |sep|] == head[j..j + |sep|];
            assert !OccursAt(s, sep, j);
          }
        }
      }
      SplitPieces(s[k + |sep|..], sep);
      assert s == head + sep + s[k + |sep|..];
    }
  }

  /** Pieces that do not contain a one-character separator come back out of
      `split` unchanged after `join`. */
  lemma {:induction false} SplitJoin(xs: seq<string>, c: char)
    requires |xs| >= 1
    requires forall i :: 0 <= i < |xs| ==> c !in xs[i]
    ensures Split(Join(xs, [c]), [c]) == xs
  {
    var s := Join(xs, [c]);
    var k := IndexOf(s, [c]);
    IndexOfFirst(s, [c]);
    if |xs| > 1 {
      var tail := Join(xs[1..], [c]);
      assert s == xs[0] + [c] + tail;
      assert OccursAt(s, [c], |xs[0]|);
      forall j | 0 <= j < |xs[0]| ensures !OccursAt(s, [c], j) {
        assert s[j] == xs[0][j];
        assert s[j..j + 1] == [s[j]];
      }
      assert k == |xs[0]|;
      assert s[..k] == xs[0];
      assert s[k + 1..] == tail;
      SplitJoin(xs[1..], c);
    } else {
      NotContainsHead(xs[0], [c]);
    }
  }

  /** When the separator's first character does not occur in `a`, the
      first piece of `a + sep + b` is `a`. */
  lemma SplitFirst(a: string, sep: string, b: string)
    requires sep != [] && sep[0] !in a
    ensures Split(a + sep + b, sep) == [a] + Split(b, sep)
  {
    var s := a + sep + b;
    assert s[|a|..|a| + |sep|] == sep;
    assert OccursAt(s, sep, |a|);
    forall j | 0 <= j < |a| ensures !OccursAt(s, sep, j) {
      assert s[j] == a[j] != sep[0];
      if j + |sep| <= |s| {
        assert s[j..j + |sep|][0] == s[j];
      }
    }
    var k := IndexOf(s, sep);
    IndexOfFirst(s, sep);
    assert k == |a|;
    assert s[..k] == a;
    assert s[k + |sep|..] == b;
  }

  /** A string without the separator splits into itself alone. */
  lemma SplitNone(s: string, sep: string)
    requires sep != [] && !Contains(s, sep)
    ensures Split(s, sep) == [s]
  {
  }

  function Clamp(i: int, n: nat): (r: nat)
    ensures r <= n
  {
    if i < 0 then 0 else if i > n then n else i
  }

  /** `s.substring(start, end)`: both bounds are clamped into `[0, |s|]`,
      and swapped when the start lies past the end. */
  function JsSubstring(s: string, start: int, end: int): (r: string)
    ensures |r| <= |s|
    ensures 0 <= start <= end <= |s| ==> r == s[start..end]
    ensures 0 <= end < start <= |s| ==> r == s[end..start]
  {
    var a := Clamp(start, |s|);
    var b := Clamp(end, |s|);
    if a <= b then s[a..b] else s[b..a]
  }

  function LowerChar(c: char): char
  {
    if 'A' <= c <= 'Z' then (c as int + 32) as char else c
  }

  /** `s.toLowerCase()` restricted to ASCII letters. The words the translator
      compares against ("true" and "false") consist of ASCII letters that no
      other character lower-cases to, so the comparison is exact. */
  function LowerAscii(s: string): (r: string)
    ensures |r| == |s|
    ensures forall i :: 0 <= i < |s| ==> r[i] == LowerChar(s[i])
  {
    if s == [] then [] else [LowerChar(s[0])] + LowerAscii(s[1..])
  }

  function DigitChar(d: nat): char
    requires d < 10
  {
    ('0' as int + d) as char
  }

  /** Decimal rendering of an array index, as `for..in` yields it. */
  function NatToString(n: nat): (r: string)
    ensures |r| >= 1
    ensures forall i :: 0 <= i < |r| ==> IsDigit(r[i])
  {
    if n < 10 then [DigitChar(n)] else NatToString(n / 10) + [DigitChar(n % 10)]
  }

  /** `'  '.repeat(level)` */
  function Indent(level: nat): (r: string)
    ensures |r| == 2 * level
    ensures forall i :: 0 <= i < |r| ==> r[i] == ' '
  {
    if level == 0 then "" else "  " + Indent(level - 1)
  }

  lemma ConsAppend<T>(s: seq<T>, x: T)
    requires s != []
    ensures s + [x] == [s[0]] + (s[1..] + [x])
  {
  }

  /** Lines, each followed by a line break. */
  function Unlines(ls: seq<string>): string
  {
    if ls == [] then "" else ls[0] + "\n" + Unlines(ls[1..])
  }

  /** Text made of lines without line breaks, each ended by one, splits
      into those lines and a last empty piece. */
  lemma {:induction false} SplitUnlines(ls: seq<string>)
    requires forall i :: 0 <= i < |ls| ==> '\n' !in ls[i]
    ensures Split(Unlines(ls), "\n") == ls + [""]
  {
    if ls == [] {
      NotContainsHead("", "\n");
      SplitNone("", "\n");
    } else {
      var rest := Unlines(ls[1..]);
      assert Unlines(ls) == ls[0] + "\n" + rest;
      assert "\n"[0] == '\n' && '\n' !in ls[0];
      SplitFirst(ls[0], "\n", rest);
      SplitUnlines(ls[1..]);
      ConsAppend(ls, "");
    }
  }

  lemma TakeNext<T>(s: seq<T>, j: nat)
    requires j < |s|
    ensures s[..j] + [s[j]] == s[..j + 1]
  {
  }

  lemma TakeAll<T>(s: seq<T>)
    ensures s[..|s|] == s
  {
  }

  /** A suffix made of characters satisfying `p`, after one that does not
      (or after nothing), is exactly the back span. */
  lemma {:induction false} SpanBackBefore(x: string, y: string, p: char -> bool)
    requires forall i :: 0 <= i < |y| ==> p(y[i])
    requires x == [] || !p(x[|x| - 1])
    ensures SpanBack(x + y, p) == |y|
    decreases |y|
  {
    if y != [] {
      var s := x + y;
      assert s[|s| - 1] == y[|y| - 1];
      assert s[..|s| - 1] == x + y[..|y| - 1];
      SpanBackBefore(x, y[..|y| - 1], p);
    } else {
      assert x + y == x;
    }
  }

  /** Trimming white space from around a trimmed, non-empty string gives that string. */
  lemma TrimPadded(a: string, x: string, b: string)
    requires AllSpace(a) && AllSpace(b) && x != [] && IsTrimmed(x)
    ensures Trim(a + x + b) == x
  {
    var s := a + x + b;
    assert s == a + (x + b);
    assert (x + b)[0] == x[0];
    SpanAfter(a, x + b, IsJsSpace);
    assert TrimStart(s) == x + b;
    SpanBackBefore(x, b, IsJsSpace);
    assert (x + b)[..|x|] == x;
  }
}
