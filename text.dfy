/**
 * The handful of Python `str` operations the scripts and the backend rely on:
 * `isspace`, `startswith`/`endswith`, `strip`, `split(sep)`, `sep.join`,
 * `splitlines`, `int` on decimal digits and `str` on a natural number.
 */
module Text {

  /** Python's `str.isspace()` for one character (the Unicode White_Space set CPython uses). */
  predicate IsSpace(c: char) {
    c == ' ' || ('\t' <= c <= '\r') || ('\U{1c}' <= c <= '\U{1f}') || c == '\U{85}' || c == '\U{a0}'
    || c == '\U{1680}' || ('\U{2000}' <= c <= '\U{200a}') || c == '\U{2028}' || c == '\U{2029}'
    || c == '\U{202f}' || c == '\U{205f}' || c == '\U{3000}'
  }

  /** The characters at which Python's `str.splitlines()` ends a line (`\r\n` counts as one break). */
  predicate IsLineBreak(c: char) {
    c == '\n' || c == '\r' || c == '\U{0b}' || c == '\U{0c}' || c == '\U{1c}' || c == '\U{1d}'
    || c == '\U{1e}' || c == '\U{85}' || c == '\U{2028}' || c == '\U{2029}'
  }

  predicate IsDigit(c: char) {
    '0' <= c <= '9'
  }

  predicate AllSpace(s: string) {
    forall k :: 0 <= k < |s| ==> IsSpace(s[k])
  }

  predicate AllDigits(s: string) {
    forall k :: 0 <= k < |s| ==> IsDigit(s[k])
  }

  predicate NoLineBreak(s: string) {
    forall k :: 0 <= k < |s| ==> !IsLineBreak(s[k])
  }

  /** Every line break in `s` is a plain `\n`: the text splits the same way on `"\n"` and by `splitlines`. */
  predicate OnlyNewlineBreaks(s: string) {
    forall k :: 0 <= k < |s| && IsLineBreak(s[k]) ==> s[k] == '\n'
  }

  /** `s.startswith(p)` */
  predicate StartsWith(s: string, p: string) {
    p <= s
  }

  lemma StartsWithAppend(s: string, t: string, p: string)
    requires StartsWith(s, p)
    ensures StartsWith(s + t, p)
  {
    assert (s + t)[..|p|] == s[..|p|];
  }

  /** `s.endswith(q)` */
  predicate EndsWith(s: string, q: string) {
    |q| <= |s| && s[|s| - |q|..] == q
  }

  lemma LineBreakIsSpace(c: char)
    ensures IsLineBreak(c) ==> IsSpace(c)
  {
  }

  // ---------------------------------------------------------------- strip

  /** `s.lstrip()` */
  function TrimStart(s: string): (r: string)
    ensures |r| <= |s| && r == s[|s| - |r|..]
    ensures forall k :: 0 <= k < |s| - |r| ==> IsSpace(s[k])
    ensures r == [] || !IsSpace(r[0])
    decreases |s|
  {
    if s != [] && IsSpace(s[0]) then TrimStart(s[1..]) else s
  }

  /** `s.rstrip()` */
  function TrimEnd(s: string): (r: string)
    ensures |r| <= |s| && r == s[..|r|]
    ensures forall k :: |r| <= k < |s| ==> IsSpace(s[k])
    ensures r == [] || !IsSpace(r[|r| - 1])
    decreases |s|
  {
    if s != [] && IsSpace(s[|s| - 1]) then TrimEnd(s[..|s| - 1]) else s
  }

  /** `s.strip()` */
  function Strip(s: string): string {
    TrimEnd(TrimStart(s))
  }

  lemma {:induction false} TrimStartSpacePrefix(a: string, t: string)
    requires AllSpace(a)
    ensures TrimStart(a + t) == TrimStart(t)
    decreases |a|
  {
    if a == [] {
      assert a + t == t;
    } else {
      assert (a + t)[0] == a[0];
      assert (a + t)[1..] == a[1..] + t;
      TrimStartSpacePrefix(a[1..], t);
    }
  }

  lemma {:induction false} TrimStartAppend(s: string, b: string)
    requires TrimStart(s) != []
    ensures TrimStart(s + b) == TrimStart(s) + b
    decreases |s|
  {
    assert s != [] && (s + b)[0] == s[0];
    if IsSpace(s[0]) {
      assert (s + b)[1..] == s[1..] + b;
      TrimStartAppend(s[1..], b);
    }
  }

  lemma {:induction false} TrimEndSpaceSuffix(t: string, b: string)
    requires AllSpace(b)
    ensures TrimEnd(t + b) == TrimEnd(t)
    decreases |b|
  {
    if b == [] {
      assert t + b == t;
    } else {
      var b' := b[..|b| - 1];
      assert (t + b)[|t + b| - 1] == b[|b| - 1];
      assert (t + b)[..|t + b| - 1] == t + b';
      TrimEndSpaceSuffix(t, b');
    }
  }

  /** Trailing whitespace does not change what `strip` returns. */
  lemma StripTrailing(s: string, pad: string)
    requires AllSpace(pad)
    ensures Strip(s + pad) == Strip(s)
  {
    if TrimStart(s) == [] {
      assert AllSpace(s + pad) by {
        forall k | 0 <= k < |s + pad| ensures IsSpace((s + pad)[k]) {
          if k < |s| { assert (s + pad)[k] == s[k]; } else { assert (s + pad)[k] == pad[k - |s|]; }
        }
      }
      TrimStartSpacePrefix(s + pad, []);
      assert s + pad + [] == s + pad;
    } else {
      TrimStartAppend(s, pad);
      TrimEndSpaceSuffix(TrimStart(s), pad);
    }
  }

  /** Surrounding whitespace never changes what `strip` returns. */
  lemma StripPadded(a: string, s: string, b: string)
    requires AllSpace(a) && AllSpace(b)
    ensures Strip(a + s + b) == Strip(s)
  {
    assert a + s + b == a + (s + b);
    TrimStartSpacePrefix(a, s + b);
    StripTrailing(s, b);
  }

  /** `lstrip` removes a run of whitespace from the front. */
  lemma TrimStartSplits(s: string)
    ensures var r := TrimStart(s); s == s[..|s| - |r|] + r && AllSpace(s[..|s| - |r|])
  {
    var r := TrimStart(s);
    var n := |s| - |r|;
    assert s == s[..n] + s[n..];
    SpacePrefix(s, n);
  }

  lemma SpacePrefix(s: string, n: nat)
    requires n <= |s| && forall k :: 0 <= k < n ==> IsSpace(s[k])
    ensures AllSpace(s[..n])
  {
    forall k | 0 <= k < n ensures IsSpace(s[..n][k]) { assert s[..n][k] == s[k]; }
  }

  /** `rstrip` removes a run of whitespace from the back. */
  lemma TrimEndSplits(r: string)
    ensures var m := TrimEnd(r); r == m + r[|m|..] && AllSpace(r[|m|..])
  {
    var m := TrimEnd(r);
    var b := r[|m|..];
    assert m == r[..|m|];
    forall k | 0 <= k < |b| ensures IsSpace(b[k]) { assert b[k] == r[|m| + k]; }
  }

  /** Every text is its `strip` between two runs of whitespace. */
  lemma StripSplits(s: string) returns (a: string, b: string)
    ensures AllSpace(a) && AllSpace(b) && s == a + Strip(s) + b
  {
    var r := TrimStart(s);
    var m := TrimEnd(r);
    TrimStartSplits(s);
    TrimEndSplits(r);
    a, b := s[..|s| - |r|], r[|m|..];
    assert m == Strip(s);
    Assoc(a, m, b);
  }

  /** `strip` is idempotent. */
  lemma StripStrip(s: string)
    ensures Strip(Strip(s)) == Strip(s)
  {
    var a, b := StripSplits(s);
    StripPadded(a, Strip(s), b);
  }

  /** Text that begins with a run of non-blank characters keeps that run after `strip`. */
  lemma StripKeepsPrefix(s: string, p: string)
    requires StartsWith(s, p) && p != []
    requires forall k :: 0 <= k < |p| ==> !IsSpace(p[k])
    ensures StartsWith(Strip(s), p)
  {
    assert s[0] == p[0];
    assert TrimStart(s) == s;
    var r := TrimEnd(s);
    assert s[|p| - 1] == p[|p| - 1];
    assert r[..|p|] == s[..|p|];
  }

  // ---------------------------------------------------------------- split / join

  /** The index of the first `c` in `s`, or `|s|` when there is none (`s.find(c)` with -1 read as `|s|`). */
  function IndexOf(s: string, c: char): (i: nat)
    ensures i <= |s| && (i < |s| ==> s[i] == c)
    ensures forall k :: 0 <= k < i ==> s[k] != c
    decreases |s|
  {
    if s == [] then 0 else if s[0] == c then 0 else 1 + IndexOf(s[1..], c)
  }

  /** `s.split(c)`: always at least one part, none holding `c`. */
  function Split(s: string, c: char): (parts: seq<string>)
    ensures |parts| >= 1
    ensures forall p :: p in parts ==> c !in p
    decreases |s|
  {
    var i := IndexOf(s, c);
    if i == |s| then
      assert c !in s by {
        forall k | 0 <= k < |s| ensures s[k] != c { }
      }
      [s]
    else
      assert c !in s[..i];
      [s[..i]] + Split(s[i + 1..], c)
  }

  /** `sep.join(parts)` */
  function Join(parts: seq<string>, sep: string): string {
    if |parts| == 0 then "" else if |parts| == 1 then parts[0] else parts[0] + sep + Join(parts[1..], sep)
  }

  /** Joining the parts of a split with the separator gives the text back. */
  lemma {:induction false} JoinSplit(s: string, c: char)
    ensures Join(Split(s, c), [c]) == s
    decreases |s|
  {
    var i := IndexOf(s, c);
    if i < |s| {
      var rest := s[i + 1..];
      SplitAt(s, c);
      JoinSplit(rest, c);
      JoinCons(s[..i], Split(rest, c), [c]);
      assert s == s[..i] + [c] + rest;
    } else {
      IndexOfAbsent(s, c);
    }
  }

  /** Joining a part in front of further parts puts the separator between. */
  lemma JoinCons(p: string, parts: seq<string>, sep: string)
    requires parts != []
    ensures Join([p] + parts, sep) == p + sep + Join(parts, sep)
  {
    assert ([p] + parts)[1..] == parts;
  }

  lemma {:induction false} IndexOfAbsent(s: string, c: char)
    requires c !in s
    ensures IndexOf(s, c) == |s|
    decreases |s|
  {
    if s != [] {
      assert s[0] in s;
      assert c !in s[1..];
      IndexOfAbsent(s[1..], c);
    }
  }

  /** Three separator-free parts joined by the separator split back into those three. */
  lemma SplitThree(a: string, b: string, d: string, c: char)
    requires c !in a && c !in b && c !in d
    ensures Split(a + [c] + b + [c] + d, c) == [a, b, d]
  {
    IndexOfAbsent(d, c);
    Assoc(a + [c], b, [c]);
    Assoc(a + [c], b + [c], d);
    SplitAroundFirst(a, b + [c] + d, c);
    SplitAroundFirst(b, d, c);
  }

  /** Looking for `c` in `a + b` with `c` absent from `a` finds it in `b`. */
  lemma {:induction false} IndexOfAfter(a: string, b: string, c: char)
    requires c !in a
    ensures IndexOf(a + b, c) == |a| + IndexOf(b, c)
    decreases |a|
  {
    if a == [] {
      assert a + b == b;
    } else {
      assert a[0] in a && (a + b)[0] == a[0];
      assert (a + b)[1..] == a[1..] + b;
      assert c !in a[1..];
      IndexOfAfter(a[1..], b, c);
    }
  }

  /** Looking for `c` in `a + t` when `a` holds a `c` finds that one. */
  lemma {:induction false} IndexOfBefore(a: string, t: string, c: char)
    requires IndexOf(a, c) < |a|
    ensures IndexOf(a + t, c) == IndexOf(a, c)
    decreases |a|
  {
    assert (a + t)[0] == a[0];
    if a[0] != c {
      assert (a + t)[1..] == a[1..] + t;
      IndexOfBefore(a[1..], t, c);
    }
  }

  /** A separator cuts the split in two: `(a + c + b).split(c) == a.split(c) + b.split(c)`. */
  lemma {:induction false} SplitAround(a: string, b: string, c: char)
    ensures Split(a + [c] + b, c) == Split(a, c) + Split(b, c)
    decreases |a|
  {
    var i := IndexOf(a, c);
    if i == |a| {
      assert c !in a;
      SplitAroundFirst(a, b, c);
      IndexOfAbsent(a, c);
    } else {
      var s := a + [c] + b;
      var rest := a[i + 1..];
      assert s == a + ([c] + b);
      IndexOfBefore(a, [c] + b, c);
      assert s[..i] == a[..i];
      assert s[i + 1..] == rest + [c] + b;
      SplitAt(s, c);
      SplitAt(a, c);
      SplitAround(rest, b, c);
      Assoc([a[..i]], Split(rest, c), Split(b, c));
    }
  }

  /** A text holding a separator splits into the part before it and the split of the rest. */
  lemma SplitAt(s: string, c: char)
    requires IndexOf(s, c) < |s|
    ensures Split(s, c) == [s[..IndexOf(s, c)]] + Split(s[IndexOf(s, c) + 1..], c)
  {
  }

  /** A text holding the separator splits into two parts at least. */
  lemma SplitOfSeparated(s: string, c: char)
    requires c in s
    ensures |Split(s, c)| >= 2
  {
    SplitAt(s, c);
  }

  /** The case of `SplitAround` where `a` holds no separator. */
  lemma SplitAroundFirst(a: string, b: string, c: char)
    requires c !in a
    ensures Split(a + [c] + b, c) == [a] + Split(b, c)
  {
    var s := a + [c] + b;
    assert s == a + ([c] + b);
    IndexOfAfter(a, [c] + b, c);
    assert IndexOf(s, c) == |a|;
    assert s[..|a|] == a;
    assert s[|a| + 1..] == b;
  }

  lemma Assoc<T>(a: seq<T>, b: seq<T>, c: seq<T>)
    ensures a + (b + c) == a + b + c
  {
  }

  // ---------------------------------------------------------------- splitlines

  /** The index of the first line break in `s`, or `|s|`. */
  function LineEnd(s: string): (i: nat)
    ensures i <= |s| && (i < |s| ==> IsLineBreak(s[i]))
    ensures forall k :: 0 <= k < i ==> !IsLineBreak(s[k])
    decreases |s|
  {
    if s == [] then 0 else if IsLineBreak(s[0]) then 0 else 1 + LineEnd(s[1..])
  }

  /** The width of the break starting at index `i`: two for `\r\n`, one otherwise. */
  function BreakWidth(s: string, i: nat): (w: nat)
    requires i < |s|
    ensures 1 <= w <= 2 && i + w <= |s|
  {
    if s[i] == '\r' && i + 1 < |s| && s[i + 1] == '\n' then 2 else 1
  }

  /** `s.splitlines()`: the lines without their breaks; a final break does not open an empty line. */
  function SplitLines(s: string): (lines: seq<string>)
    ensures |lines| == 0 <==> s == []
    decreases |s|
  {
    if s == [] then []
    else
      var i := LineEnd(s);
      if i == |s| then [s] else [s[..i]] + SplitLines(s[i + BreakWidth(s, i)..])
  }

  /** The first line runs up to the first break. */
  lemma FirstLine(s: string)
    requires s != []
    ensures SplitLines(s)[0] == s[..LineEnd(s)]
  {
  }

  /** A prefix without line breaks stays a prefix of the first line. */
  lemma FirstLineHasPrefix(s: string, p: string)
    requires s != [] && StartsWith(s, p) && NoLineBreak(p)
    ensures StartsWith(SplitLines(s)[0], p)
  {
    assert s == p + s[|p|..];
    LineEndAfter(p, s[|p|..]);
    FirstLine(s);
    assert s[..LineEnd(s)][..|p|] == p;
  }

  lemma {:induction false} NoLineBreakLineEnd(s: string)
    requires NoLineBreak(s)
    ensures LineEnd(s) == |s|
    decreases |s|
  {
    if s != [] {
      NoLineBreakLineEnd(s[1..]);
    }
  }

  /**
   * Text that does not end in whitespace is one line exactly when it has no line break:
   * a break is always followed by a non-empty rest, which gives a second line.
   */
  lemma SingleLineIff(s: string)
    requires s != [] && !IsSpace(s[|s| - 1])
    ensures |SplitLines(s)| == 1 <==> NoLineBreak(s)
  {
    var i := LineEnd(s);
    if NoLineBreak(s) {
      NoLineBreakLineEnd(s);
    } else {
      var k :| 0 <= k < |s| && IsLineBreak(s[k]);
      assert i <= k;
      assert i < |s|;
      var w := BreakWidth(s, i);
      LineBreakIsSpace(s[i]);
      if w == 2 { LineBreakIsSpace(s[i + 1]); }
      assert i + w < |s|;
      assert SplitLines(s[i + w..]) != [];
    }
  }

  /** Looking for a break in `a + t` with no break in `a` finds it in `t`. */
  lemma {:induction false} LineEndAfter(a: string, t: string)
    requires NoLineBreak(a)
    ensures LineEnd(a + t) == |a| + LineEnd(t)
    decreases |a|
  {
    if a == [] {
      assert a + t == t;
    } else {
      assert (a + t)[0] == a[0];
      assert (a + t)[1..] == a[1..] + t;
      assert NoLineBreak(a[1..]) by {
        forall k | 0 <= k < |a| - 1 ensures !IsLineBreak(a[1..][k]) { assert a[1..][k] == a[k + 1]; }
      }
      LineEndAfter(a[1..], t);
    }
  }

  /** A line without breaks, then `\n`: that line comes first. */
  lemma SplitLinesCons(a: string, y: string)
    requires NoLineBreak(a)
    ensures SplitLines(a + ['\n'] + y) == [a] + SplitLines(y)
  {
    var x := a + ['\n'] + y;
    assert x == a + (['\n'] + y);
    LineEndAfter(a, ['\n'] + y);
    assert LineEnd(x) == |a|;
    assert x[|a|] == '\n';
    assert BreakWidth(x, |a|) == 1;
    assert x[..|a|] == a;
    assert x[|a| + 1..] == y;
  }

  /**
   * A `\n` that follows text whose only breaks are `\n`: `splitlines` of the whole is the
   * `split("\n")` of that text followed by the lines of the rest.
   */
  lemma {:induction false} SplitLinesAfter(s: string, t: string)
    requires OnlyNewlineBreaks(s)
    ensures SplitLines(s + ['\n'] + t) == Split(s, '\n') + SplitLines(t)
    decreases |s|
  {
    var j := IndexOf(s, '\n');
    var head := s[..j];
    assert NoLineBreak(head) by {
      forall k | 0 <= k < |head| ensures !IsLineBreak(head[k]) { assert head[k] == s[k]; }
    }
    if j < |s| {
      var rest := s[j + 1..];
      assert s == head + ['\n'] + rest;
      assert OnlyNewlineBreaks(rest) by {
        forall k | 0 <= k < |rest| ensures IsLineBreak(rest[k]) ==> rest[k] == '\n' {
          assert rest[k] == s[j + 1 + k];
        }
      }
      assert s + ['\n'] + t == head + ['\n'] + (rest + ['\n'] + t);
      SplitLinesCons(head, rest + ['\n'] + t);
      SplitLinesAfter(rest, t);
      assert Split(s, '\n') == [head] + Split(rest, '\n');
      Assoc([head], Split(rest, '\n'), SplitLines(t));
    } else {
      assert head == s;
      SplitLinesCons(s, t);
      assert Split(s, '\n') == [s];
    }
  }

  // ---------------------------------------------------------------- decimal numbers

  /** The value of an ASCII digit. */
  function DigitValue(c: char): (d: nat)
    requires IsDigit(c)
    ensures d < 10
  {
    c as int - '0' as int
  }

  /** `int(s)` for a string of ASCII digits. */
  function DecimalValue(s: string): nat
    requires AllDigits(s)
  {
    if s == [] then 0 else 10 * DecimalValue(s[..|s| - 1]) + DigitValue(s[|s| - 1])
  }

  /** `str(n)`: the shortest decimal spelling of `n`. */
  function NatToString(n: nat): (s: string)
    ensures s != [] && AllDigits(s)
    ensures |s| > 1 ==> s[0] != '0'
    decreases n
  {
    var last := ['0' + (n % 10) as char];
    if n < 10 then last else NatToString(n / 10) + last
  }

  /** Reading back the decimal spelling of `n` gives `n`. */
  lemma {:induction false} DecimalOfNatToString(n: nat)
    ensures DecimalValue(NatToString(n)) == n
    decreases n
  {
    var s := NatToString(n);
    if n >= 10 {
      DecimalOfNatToString(n / 10);
      assert s[..|s| - 1] == NatToString(n / 10);
    }
  }
}
