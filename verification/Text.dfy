/** Text primitives shared by the config modules: Python's whitespace classes, strip, line splitting and
    concatenation of serialized parts. */
module Text {

  datatype Option<+T> = None | Some(value: T)

  /** Characters matched by a regular expression's whitespace class and removed by `str.strip()`. */
  predicate IsSpace(c: char) {
    || '\t' <= c <= '\r'
    || '\U{1c}' <= c <= ' '
    || c == '\U{85}' || c == '\U{a0}' || c == '\U{1680}'
    || '\U{2000}' <= c <= '\U{200a}'
    || c == '\U{2028}' || c == '\U{2029}' || c == '\U{202f}' || c == '\U{205f}' || c == '\U{3000}'
  }

  predicate IsBlank(c: char) {
    c == ' ' || c == '\t'
  }

  /** ASCII part of the word class. */
  predicate IsWordChar(c: char) {
    'a' <= c <= 'z' || 'A' <= c <= 'Z' || '0' <= c <= '9' || c == '_'
  }

  predicate AllSpace(s: string) {
    forall i | 0 <= i < |s| :: IsSpace(s[i])
  }

  predicate AllBlank(s: string) {
    forall i | 0 <= i < |s| :: IsBlank(s[i])
  }

  /** Index of the first newline from `i` on, or the length when there is none. */
  function LineEnd(s: string, i: nat): (n: nat)
    requires i <= |s|
    ensures i <= n <= |s|
    decreases |s| - i
  {
    if i == |s| || s[i] == '\n' then i else LineEnd(s, i + 1)
  }

  /** Length of the first line. */
  function LineLength(s: string): (n: nat)
    ensures n <= |s|
  {
    LineEnd(s, 0)
  }

  lemma {:induction false} LineEndIs(s: string, i: nat)
    requires i <= |s|
    ensures LineEnd(s, i) < |s| ==> s[LineEnd(s, i)] == '\n'
    ensures forall j | i <= j < LineEnd(s, i) :: s[j] != '\n'
    decreases |s| - i
  {
    if i < |s| && s[i] != '\n' {
      LineEndIs(s, i + 1);
    }
  }

  /** The first line ends at the first newline. */
  lemma LineLengthIs(s: string)
    ensures LineLength(s) < |s| ==> s[LineLength(s)] == '\n'
    ensures forall i | 0 <= i < LineLength(s) :: s[i] != '\n'
  {
    LineEndIs(s, 0);
  }

  lemma LineLengthOnly(s: string, n: nat)
    requires n <= |s| && (n == |s| || s[n] == '\n') && forall i | 0 <= i < n :: s[i] != '\n'
    ensures LineLength(s) == n
  {
    LineLengthIs(s);
  }

  function BlankLength(s: string): (n: nat)
    ensures n <= |s|
    ensures n < |s| ==> !IsBlank(s[n])
  {
    if s == "" || !IsBlank(s[0]) then 0 else 1 + BlankLength(s[1..])
  }

  lemma {:induction false} BlankBefore(s: string)
    ensures forall i | 0 <= i < BlankLength(s) :: IsBlank(s[i])
  {
    if s != "" && IsBlank(s[0]) {
      BlankBefore(s[1..]);
    }
  }

  lemma BlankLengthOnly(s: string, n: nat)
    requires n <= |s| && AllBlank(s[..n]) && (n < |s| ==> !IsBlank(s[n]))
    ensures BlankLength(s) == n
  {
    BlankBefore(s);
    assert forall i | 0 <= i < n :: s[..n][i] == s[i];
  }

  function SpaceLength(s: string): (n: nat)
    ensures n <= |s|
    ensures n < |s| ==> !IsSpace(s[n])
  {
    if s == "" || !IsSpace(s[0]) then 0 else 1 + SpaceLength(s[1..])
  }

  lemma {:induction false} SpaceBefore(s: string)
    ensures AllSpace(s[..SpaceLength(s)])
  {
    if s != "" && IsSpace(s[0]) {
      SpaceBefore(s[1..]);
    }
  }

  /** `str.lstrip()` */
  function LStrip(s: string): string {
    s[SpaceLength(s)..]
  }

  /** `str.rstrip()` */
  function RStrip(s: string): (r: string)
    ensures r <= s
    ensures AllSpace(s[|r|..])
    ensures r != "" ==> !IsSpace(r[|r| - 1])
  {
    if s == "" || !IsSpace(s[|s| - 1]) then s
    else
      var r := RStrip(s[..|s| - 1]);
      assert s[|r|..] == s[..|s| - 1][|r|..] + [s[|s| - 1]];
      r
  }

  /** `str.strip()` */
  function Strip(s: string): string {
    RStrip(LStrip(s))
  }

  predicate Stripped(s: string) {
    s != "" ==> !IsSpace(s[0]) && !IsSpace(s[|s| - 1])
  }

  predicate EndsWith(s: string, suffix: string) {
    |suffix| <= |s| && s[|s| - |suffix|..] == suffix
  }

  /** Whether `pat` occurs somewhere in `s`. */
  predicate Contains(s: string, pat: string) {
    pat <= s || (s != "" && Contains(s[1..], pat))
  }

  /** `s.split("\n")` */
  function Lines(s: string): (ls: seq<string>)
    ensures |ls| > 0
    decreases |s|
  {
    var n := LineLength(s);
    if n == |s| then [s] else [s[..n]] + Lines(s[n + 1..])
  }

  /** `"\n".join(ls)` */
  function JoinLines(ls: seq<string>): string {
    if |ls| == 0 then ""
    else if |ls| == 1 then ls[0]
    else ls[0] + "\n" + JoinLines(ls[1..])
  }

  /** The texts of `xs`, one after the other. */
  function Concat<T>(f: T -> string, xs: seq<T>): string {
    if xs == [] then "" else f(xs[0]) + Concat(f, xs[1..])
  }

  lemma {:induction false} ConcatAppend<T>(f: T -> string, xs: seq<T>, ys: seq<T>)
    ensures Concat(f, xs + ys) == Concat(f, xs) + Concat(f, ys)
  {
    if xs == [] {
      assert xs + ys == ys;
    } else {
      ConcatAppend(f, xs[1..], ys);
      assert (xs + ys)[1..] == xs[1..] + ys;
    }
  }

  lemma ConcatOne<T>(f: T -> string, x: T)
    ensures Concat(f, [x]) == f(x)
  {
    assert Concat(f, [x][1..]) == "";
  }

  lemma ConcatPush<T>(f: T -> string, xs: seq<T>, x: T)
    ensures Concat(f, xs + [x]) == Concat(f, xs) + f(x)
  {
    ConcatAppend(f, xs, [x]);
    ConcatOne(f, x);
  }

  lemma {:induction false} JoinOfLines(s: string)
    ensures JoinLines(Lines(s)) == s
    decreases |s|
  {
    var n := LineLength(s);
    if n < |s| {
      JoinOfLines(s[n + 1..]);
      assert ([s[..n]] + Lines(s[n + 1..]))[1..] == Lines(s[n + 1..]);
      LineLengthIs(s);
      assert s == s[..n] + "\n" + s[n + 1..];
    }
  }

  /** Text taken from the front of `s` and appended to `a`. */
  lemma Regroup(a: string, t: string, s: string)
    requires t <= s
    ensures a + t + s[|t|..] == a + s
  {
    assert s == t + s[|t|..];
  }

  lemma Associate(a: string, b: string, c: string)
    ensures a + b + c == a + (b + c)
  {
  }

  function Total<T>(f: T -> nat, xs: seq<T>): nat {
    if xs == [] then 0 else f(xs[0]) + Total(f, xs[1..])
  }

  lemma {:induction false} TotalAppend<T>(f: T -> nat, xs: seq<T>, ys: seq<T>)
    ensures Total(f, xs + ys) == Total(f, xs) + Total(f, ys)
  {
    if xs == [] {
      assert xs + ys == ys;
    } else {
      TotalAppend(f, xs[1..], ys);
      assert (xs + ys)[1..] == xs[1..] + ys;
    }
  }

  lemma TotalOne<T>(f: T -> nat, x: T)
    ensures Total(f, [x]) == f(x)
  {
    assert Total(f, [x][1..]) == 0;
  }

  /** How many characters are not whitespace. */
  function Ink(s: string): nat {
    if s == "" then 0 else (if IsSpace(s[0]) then 0 else 1) + Ink(s[1..])
  }

  lemma {:induction false} InkAppend(a: string, b: string)
    ensures Ink(a + b) == Ink(a) + Ink(b)
  {
    if a == "" {
      assert a + b == b;
    } else {
      InkAppend(a[1..], b);
      assert (a + b)[1..] == a[1..] + b;
    }
  }

  lemma {:induction false} NoInk(s: string)
    ensures Ink(s) == 0 <==> AllSpace(s)
  {
    if s != "" {
      NoInk(s[1..]);
      if AllSpace(s) {
        assert AllSpace(s[1..]);
      } else if AllSpace(s[1..]) {
        assert forall i | 1 <= i < |s| :: s[i] == s[1..][i - 1];
      }
    }
  }

  lemma {:induction false} RStripPadded(v: string, b: string)
    requires AllSpace(b) && (v == "" || !IsSpace(v[|v| - 1]))
    ensures RStrip(v + b) == v
    decreases |b|
  {
    if b == "" {
      assert v + b == v;
    } else {
      assert (v + b)[..|v + b| - 1] == v + b[..|b| - 1];
      RStripPadded(v, b[..|b| - 1]);
    }
  }

  lemma {:induction false} LStripPadded(a: string, v: string)
    requires AllSpace(a) && (v == "" || !IsSpace(v[0]))
    ensures LStrip(a + v) == v
    decreases |a|
  {
    if a == "" {
      assert a + v == v;
    } else {
      LStripPadded(a[1..], v);
      assert (a + v)[1..] == a[1..] + v;
    }
  }

  /** Stripping removes exactly the padding around a text without any. */
  lemma StripPadded(a: string, v: string, b: string)
    requires AllSpace(a) && AllSpace(b) && Stripped(v)
    ensures Strip(a + v + b) == v
  {
    if v == "" {
      assert a + v + b == (a + b) + "";
      LStripPadded(a + b, "");
    } else {
      Associate(a, v, b);
      LStripPadded(a, v + b);
      RStripPadded(v, b);
    }
  }

  lemma StripInk(s: string)
    ensures Ink(Strip(s)) == Ink(s) && Stripped(Strip(s))
  {
    LStripInk(s);
    RStripInk(LStrip(s));
  }

  lemma LStripInk(s: string)
    ensures Ink(LStrip(s)) == Ink(s) && (LStrip(s) != "" ==> !IsSpace(LStrip(s)[0]))
  {
    var n := SpaceLength(s);
    SpaceBefore(s);
    InkAppend(s[..n], s[n..]);
    NoInk(s[..n]);
    assert s == s[..n] + s[n..];
  }

  lemma RStripInk(l: string)
    ensures Ink(RStrip(l)) == Ink(l)
  {
    var r := RStrip(l);
    InkAppend(r, l[|r|..]);
    NoInk(l[|r|..]);
    assert l == r + l[|r|..];
  }
}
