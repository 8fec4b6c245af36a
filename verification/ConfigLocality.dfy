/** What the tokenizer sees of the text far ahead: most rules match within a line, and the three that do not look only
    for a closing brace or for the end of a template. */
module ConfigLocality {
  import opened Text
  import opened ConfigTokens
  import opened ConfigGrammar

  predicate EndsLine(w: string) {
    w != "" && w[|w| - 1] == '\n'
  }

  lemma EndsLineDrop(w: string, n: nat)
    requires EndsLine(w) && n < |w|
    ensures EndsLine(w[n..])
  {
  }

  lemma DropAppend(w: string, q: string, n: nat)
    requires n <= |w|
    ensures (w + q)[n..] == w[n..] + q
  {
  }

  lemma TakeAppend(w: string, q: string, n: nat)
    requires n <= |w|
    ensures (w + q)[..n] == w[..n]
  {
  }

  // ------------------------------------------------------------------------------------ scans that stop early

  lemma {:induction false} BlankStops(w: string, q: string)
    requires BlankLength(w) < |w|
    ensures BlankLength(w + q) == BlankLength(w)
  {
    if IsBlank(w[0]) {
      BlankStops(w[1..], q);
      DropAppend(w, q, 1);
    }
  }

  lemma {:induction false} SpaceStops(w: string, q: string)
    requires SpaceLength(w) < |w|
    ensures SpaceLength(w + q) == SpaceLength(w)
  {
    if IsSpace(w[0]) {
      SpaceStops(w[1..], q);
      DropAppend(w, q, 1);
    }
  }

  lemma {:induction false} WordStops(w: string, q: string)
    requires WordTailLength(w) < |w|
    ensures WordTailLength(w + q) == WordTailLength(w)
  {
    if IsWordTail(w[0]) {
      WordStops(w[1..], q);
      DropAppend(w, q, 1);
    }
  }

  lemma {:induction false} BodyStops(w: string, q: string)
    requires CommentBody(w) < |w|
    ensures CommentBody(w + q) == CommentBody(w)
  {
    if w[0] != '\r' && w[0] != '\n' {
      BodyStops(w[1..], q);
      DropAppend(w, q, 1);
    }
  }

  lemma {:induction false} NameStops(w: string, q: string)
    requires NameLength(w) < |w|
    ensures NameLength(w + q) == NameLength(w)
  {
    if w[0] != '%' && w[0] != '}' {
      NameStops(w[1..], q);
      DropAppend(w, q, 1);
    }
  }

  lemma LineStops(w: string, q: string)
    requires LineLength(w) < |w|
    ensures LineLength(w + q) == LineLength(w)
  {
    LineLengthIs(w);
    LineLengthOnly(w + q, LineLength(w));
  }

  /** A line break stops every scan within a line. */
  lemma {:induction false} LineEndStops(w: string)
    requires EndsLine(w)
    ensures BlankLength(w) < |w| && WordTailLength(w) < |w| && CommentBody(w) < |w| && LineLength(w) < |w|
    decreases |w|
  {
    LineLengthIs(w);
    if |w| > 1 {
      EndsLineDrop(w, 1);
      LineEndStops(w[1..]);
    }
  }

  lemma PrefixReaches(pat: string, w: string, q: string)
    requires EndsLine(w) && pat <= w + q && |pat| >= |w|
    ensures '\n' in pat
  {
    assert pat[|w| - 1] == (w + q)[|w| - 1];
  }

  lemma PrefixShort(pat: string, w: string, q: string)
    requires EndsLine(w) && pat <= w + q && '\n' !in pat
    ensures |pat| < |w| && EndsLine(w[|pat|..])
  {
    if |pat| >= |w| {
      PrefixReaches(pat, w, q);
    }
  }

  /** A pattern without a line break is found within the first line or not at all. */
  lemma PrefixLocal(pat: string, w: string, q: string)
    requires EndsLine(w) && '\n' !in pat
    ensures pat <= w + q <==> pat <= w
    ensures pat <= w ==> |pat| < |w| && EndsLine(w[|pat|..])
  {
    if pat <= w {
      assert pat <= w + q;
    }
    if pat <= w + q {
      PrefixShort(pat, w, q);
      TakeAppend(w, q, |pat|);
    }
  }

  lemma LineEndLocal(v: string, q: string)
    requires EndsLine(v)
    ensures AtLineEnd(v + q) <==> AtLineEnd(v)
  {
    if v[0] == '\r' {
      assert |v| > 1;
      assert (v + q)[..2] == v[..2];
    }
  }

  // ------------------------------------------------------------------------------------------- rule by rule

  lemma StartsCommentLocal(w: string, q: string)
    requires EndsLine(w)
    ensures StartsComment(w + q) <==> StartsComment(w)
  {
    LineEndStops(w);
    BlankStops(w, q);
  }

  /** Length of a line that holds `text` alone, between blanks; 0 for any other line. */
  function WholeLine(text: string, s: string): (n: nat)
    ensures n <= |s|
  {
    var b := BlankLength(s);
    var n := LineOf(text, s[b..]);
    if n > 0 then b + n else 0
  }

  function LineOf(text: string, s: string): (n: nat)
    ensures n <= |s|
  {
    if text <= s && AtLineEnd(SkipBlanks(s[|text|..])) then |text| + BlankLength(s[|text|..]) else 0
  }

  function SkipBlanks(s: string): string {
    s[BlankLength(s)..]
  }

  lemma HiddenIs(s: string)
    ensures MatchLength(HiddenRule, s) == WholeLine(HIDDEN_TEXT, s)
  {
    var b := BlankLength(s);
    if HIDDEN_TEXT <= s[b..] {
      assert s[b + |HIDDEN_TEXT|..] == s[b..][|HIDDEN_TEXT|..];
    }
  }

  lemma HiddenLocal(w: string, q: string)
    requires EndsLine(w)
    ensures MatchLength(HiddenRule, w + q) == MatchLength(HiddenRule, w)
  {
    HiddenIs(w);
    HiddenIs(w + q);
    HiddenPattern();
    WholeLineLocal(HIDDEN_TEXT, w, q);
  }

  lemma WholeLineLocal(text: string, w: string, q: string)
    requires EndsLine(w) && '\n' !in text
    ensures WholeLine(text, w + q) == WholeLine(text, w)
  {
    LineEndStops(w);
    BlankStops(w, q);
    DropAppend(w, q, BlankLength(w));
    EndsLineDrop(w, BlankLength(w));
    LineOfLocal(text, w[BlankLength(w)..], q);
  }

  lemma LineOfLocal(text: string, w: string, q: string)
    requires EndsLine(w) && '\n' !in text
    ensures LineOf(text, w + q) == LineOf(text, w)
  {
    PrefixLocal(text, w, q);
    if text <= w {
      DropAppend(w, q, |text|);
      LineRemainderLocal(w[|text|..], q);
    }
  }

  lemma LineRemainderLocal(r: string, q: string)
    requires EndsLine(r)
    ensures BlankLength(r + q) == BlankLength(r)
    ensures AtLineEnd(SkipBlanks(r + q)) <==> AtLineEnd(SkipBlanks(r))
  {
    LineEndStops(r);
    BlankStops(r, q);
    DropAppend(r, q, BlankLength(r));
    EndsLineDrop(r, BlankLength(r));
    LineEndLocal(r[BlankLength(r)..], q);
  }

  lemma CommentLocal(w: string, q: string)
    requires EndsLine(w)
    ensures MatchLength(CommentRule, w + q) == MatchLength(CommentRule, w)
  {
    StartsCommentLocal(w, q);
    LineEndStops(w);
    LineStops(w, q);
  }

  lemma WhitespaceLocal(w: string, q: string)
    requires SpaceLength(w) < |w|
    ensures MatchLength(WhitespaceRule, w + q) == MatchLength(WhitespaceRule, w)
  {
    SpaceStops(w, q);
  }

  lemma HeaderTailLocal(w: string, q: string)
    requires EndsLine(w)
    ensures HeaderTail(w + q) <==> HeaderTail(w)
  {
    LineEndStops(w);
    BlankStops(w, q);
    var b := BlankLength(w);
    DropAppend(w, q, b);
    EndsLineDrop(w, b);
    var r := w[b..];
    LineEndLocal(r, q);
    if r[0] == '#' || r[0] == ';' {
      LineEndStops(r);
      BodyStops(r, q);
      DropAppend(r, q, CommentBody(r));
      EndsLineDrop(r, CommentBody(r));
      LineEndLocal(r[CommentBody(r)..], q);
    }
  }

  lemma {:induction false} HeaderCloseLocal(w: string, q: string, k: nat)
    requires EndsLine(w) && k < |w|
    ensures HeaderClose(w + q, k) == HeaderClose(w, k)
  {
    if k > 2 {
      DropAppend(w, q, k);
      EndsLineDrop(w, k);
      HeaderTailLocal(w[k..], q);
      HeaderCloseLocal(w, q, k - 1);
      assert HeaderClose(w + q, k - 1) == HeaderClose(w, k - 1);
    }
  }

  lemma SectionLocal(w: string, q: string)
    requires EndsLine(w)
    ensures MatchLength(SectionRule, w + q) == MatchLength(SectionRule, w)
  {
    LineEndStops(w);
    LineStops(w, q);
    HeaderCloseLocal(w, q, LineLength(w));
  }

  lemma WordLocal(w: string, q: string)
    requires EndsLine(w)
    ensures MatchLength(WordRule, w + q) == MatchLength(WordRule, w)
  {
    if IsWordChar(w[0]) {
      assert |w| > 1;
      EndsLineDrop(w, 1);
      LineEndStops(w[1..]);
      WordStops(w[1..], q);
      DropAppend(w, q, 1);
    }
  }

  lemma {:induction false} LastPairLocal(w: string, q: string, pat: string, k: nat)
    requires k < |w| && |pat| == 2
    ensures LastPair(w + q, pat, k) == LastPair(w, pat, k)
  {
    if k > 2 {
      DropAppend(w, q, k - 1);
      TakeAppend(w[k - 1..], q, 2);
      LastPairLocal(w, q, pat, k - 1);
    }
  }

  lemma NoteLocal(w: string, q: string)
    requires EndsLine(w)
    ensures MatchLength(NoteTemplateRule, w + q) == MatchLength(NoteTemplateRule, w)
    ensures MatchLength(ExprTemplateRule, w + q) == MatchLength(ExprTemplateRule, w)
  {
    LineEndStops(w);
    LineStops(w, q);
    PrefixLocal("{#", w, q);
    PrefixLocal("{{", w, q);
    LastPairLocal(w, q, "#}", LineLength(w));
    LastPairLocal(w, q, "}}", LineLength(w));
  }

  /** The rules that never look past the line they start on, and whitespace before other text. */
  predicate IsLocal(rule: Rule) {
    rule != CommentBeforeBraceRule && rule != PlaceholderRule && rule != BlockTemplateRule
  }

  lemma LocalRule(rule: Rule, w: string, q: string)
    requires IsLocal(rule) && EndsLine(w) && SpaceLength(w) < |w|
    ensures MatchLength(rule, w + q) == MatchLength(rule, w)
  {
    match rule
    case HiddenRule => HiddenLocal(w, q);
    case CommentRule => CommentLocal(w, q);
    case WhitespaceRule => WhitespaceLocal(w, q);
    case SectionRule => SectionLocal(w, q);
    case WordRule => WordLocal(w, q);
    case AssignRule =>
    case NoteTemplateRule => NoteLocal(w, q);
    case ExprTemplateRule => NoteLocal(w, q);
    case UnknownRule =>
  }

  // ---------------------------------------------------------------------------- two texts that differ far ahead

  /** What follows some text in two readings: the same `u`, whole lines, then `q` in one and `q2` in the other. */
  datatype Cut = Cut(u: string, q: string, q2: string)

  function Old(a: string, c: Cut): string {
    a + c.u + c.q
  }

  function New(a: string, c: Cut): string {
    a + c.u + c.q2
  }

  /** The first `%` or `}`, nothing when there is none. */
  function FirstStop(s: string): string {
    if NameLength(s) < |s| then [s[NameLength(s)]] else ""
  }

  ghost predicate NoPair(s: string) {
    forall i | 0 <= i < |s| - 1 :: s[i] == '%' ==> s[i + 1] != '}'
  }

  /** All that reading up to `u` can find out about what comes after it. */
  ghost predicate Sound(c: Cut) {
    && EndsLine(c.u) && !IsSpace(c.u[0])
    && (c.u[0] == '}' || ('}' in c.q <==> '}' in c.q2))
    && (NameLength(c.u) == |c.u| ==> FirstStop(c.q) == FirstStop(c.q2))
    && (NoPair(c.q) <==> NoPair(c.q2))
    && (ContinuationFollows(c.q) <==> ContinuationFollows(c.q2))
  }

  lemma OldDrop(a: string, c: Cut, n: nat)
    requires n <= |a|
    ensures Old(a, c)[n..] == Old(a[n..], c) && New(a, c)[n..] == New(a[n..], c)
    ensures Old(a, c)[..n] == New(a, c)[..n]
  {
  }

  lemma Whole(a: string, u: string)
    requires EndsLine(u)
    ensures EndsLine(a + u) && |a + u| == |a| + |u| && forall i | 0 <= i < |u| :: (a + u)[|a| + i] == u[i]
  {
  }

  lemma {:induction false} SpaceUpTo(a: string, u: string)
    requires u != "" && !IsSpace(u[0])
    ensures SpaceLength(a + u) <= |a|
  {
    if a == "" {
      assert a + u == u;
    } else {
      SpaceUpTo(a[1..], u);
      assert (a + u)[1..] == a[1..] + u;
    }
  }

  lemma InAppend(x: string, y: string, ch: char)
    ensures ch in x + y <==> ch in x || ch in y
  {
  }

  lemma BraceGroupSwap(a: string, c: Cut, j: nat)
    requires Sound(c) && j <= |a|
    ensures BraceGroupAt(Old(a, c)[j..]) <==> BraceGroupAt(New(a, c)[j..])
  {
    var v := a[j..] + c.u;
    assert Old(a, c)[j..] == v + c.q && New(a, c)[j..] == v + c.q2;
    Whole(a[j..], c.u);
    if |v| >= 2 {
      BraceGroupApart(v, c.q);
      BraceGroupApart(v, c.q2);
      assert c.u[0] == v[|a| - j];
    }
  }

  lemma BraceGroupApart(v: string, q: string)
    requires |v| >= 2
    ensures BraceGroupAt(v + q) <==> v[0] == '{' && v[1] != '}' && ('}' in v[2..] || '}' in q)
  {
    DropAppend(v, q, 2);
    InAppend(v[2..], q, '}');
  }

  lemma {:induction false} FirstBraceSwap(a: string, c: Cut, k: nat, end: nat)
    requires Sound(c) && k <= end <= |a| + |c.u|
    requires FirstBraceGroup(Old(a, c), k, end) <= |a|
    ensures FirstBraceGroup(New(a, c), k, end) == FirstBraceGroup(Old(a, c), k, end)
    decreases end - k
  {
    if k < end {
      BraceGroupSwap(a, c, k);
      if !BraceGroupAt(Old(a, c)[k..]) {
        FirstBraceSwap(a, c, k + 1, end);
      }
    }
  }

  /** A comment token ends before a brace group or at the end of its line. */
  lemma CommentBeforeBraceSwap(a: string, c: Cut)
    requires Sound(c)
    requires MatchLength(CommentBeforeBraceRule, Old(a, c)) <= |a|
    requires MatchLength(CommentBeforeBraceRule, Old(a, c)) == 0 ==> MatchLength(CommentRule, Old(a, c)) <= |a|
    ensures MatchLength(CommentBeforeBraceRule, New(a, c)) == MatchLength(CommentBeforeBraceRule, Old(a, c))
  {
    Whole(a, c.u);
    CommentScans(a + c.u, c.q);
    CommentScans(a + c.u, c.q2);
    BraceRuleIs(Old(a, c));
    BraceRuleIs(New(a, c));
    if StartsComment(a + c.u) && BlankLength(a + c.u) + 1 <= LineLength(a + c.u) {
      FirstBraceSwap(a, c, BlankLength(a + c.u) + 1, LineLength(a + c.u));
    }
  }

  lemma CommentScans(w: string, q: string)
    requires EndsLine(w)
    ensures StartsComment(w + q) <==> StartsComment(w)
    ensures LineLength(w + q) == LineLength(w) < |w| && BlankLength(w + q) == BlankLength(w)
  {
    StartsCommentLocal(w, q);
    LineEndStops(w);
    LineStops(w, q);
    BlankStops(w, q);
  }

  lemma BraceRuleIs(s: string)
    ensures MatchLength(CommentRule, s) == if StartsComment(s) then LineLength(s) else 0
    ensures MatchLength(CommentBeforeBraceRule, s) ==
            if StartsComment(s) && BlankLength(s) + 1 <= LineLength(s)
               && FirstBraceGroup(s, BlankLength(s) + 1, LineLength(s)) < LineLength(s)
            then FirstBraceGroup(s, BlankLength(s) + 1, LineLength(s)) else 0
  {
  }

  lemma {:induction false} NameJoin(v: string, q: string)
    requires NameLength(v) == |v|
    ensures NameLength(v + q) == |v| + NameLength(q)
  {
    if v == "" {
      assert v + q == q;
    } else {
      NameJoin(v[1..], q);
      assert (v + q)[1..] == v[1..] + q;
    }
  }

  lemma {:induction false} NameSuffix(v: string, k: nat)
    requires NameLength(v) == |v| && k <= |v|
    ensures NameLength(v[k..]) == |v| - k
  {
    if k > 0 {
      NameSuffix(v[1..], k - 1);
      assert v[1..][k - 1..] == v[k..];
    }
  }

  /** The end of a placeholder with the prefix `pat`. */
  lemma PlaceholderSwap(a: string, c: Cut, pat: string)
    requires c.u != "" && (NameLength(c.u) == |c.u| ==> FirstStop(c.q) == FirstStop(c.q2))
    requires pat <= a + c.u && NameLength(pat) == |pat| < |a + c.u|
    requires PlaceholderEnd(Old(a, c), |pat|) <= |a|
    ensures PlaceholderEnd(New(a, c), |pat|) == PlaceholderEnd(Old(a, c), |pat|)
  {
    var v := (a + c.u)[|pat|..];
    DropAppend(a + c.u, c.q, |pat|);
    DropAppend(a + c.u, c.q2, |pat|);
    if NameLength(v) < |v| {
      EndInText(Old(a, c), |pat|, v, c.q);
      EndInText(New(a, c), |pat|, v, c.q2);
    } else {
      NoStopAhead(a, c.u, pat, v);
      EndPastText(Old(a, c), |pat|, v, c.q);
      EndPastText(New(a, c), |pat|, v, c.q2);
    }
  }

  lemma EndInText(s: string, p: nat, v: string, q: string)
    requires p <= |s| && s[p..] == v + q && NameLength(v) < |v|
    ensures PlaceholderEnd(s, p) ==
            if NameLength(v) > 0 && v[NameLength(v)] == '}' then p + NameLength(v) + 1 else 0
  {
    NameStops(v, q);
    assert s[p + NameLength(v)] == (v + q)[NameLength(v)];
  }

  lemma NoStopAhead(a: string, u: string, pat: string, v: string)
    requires a + u == pat + v && NameLength(pat) == |pat| && NameLength(v) == |v|
    ensures NameLength(u) == |u|
  {
    NameJoin(pat, v);
    NameSuffix(a + u, |a|);
    assert (a + u)[|a|..] == u;
  }

  /** A name that fills all of `v` ends at the first stop after it. */
  lemma EndPastText(s: string, p: nat, v: string, q: string)
    requires p <= |s| && s[p..] == v + q && v != "" && NameLength(v) == |v|
    ensures PlaceholderEnd(s, p) == if FirstStop(q) == "}" then p + |v| + NameLength(q) + 1 else 0
  {
    NameJoin(v, q);
    var n := |v| + NameLength(q);
    if n < |v + q| {
      assert s[p + n] == (v + q)[n] == q[NameLength(q)];
    }
  }

  lemma {:induction false} FirstPairNone(s: string, k: nat)
    requires k <= |s| && NoPair(s[k..])
    ensures FirstPair(s, "%}", k) == |s|
    decreases |s| - k
  {
    if k < |s| {
      NoPairDrop(s[k..]);
      assert s[k + 1..] == s[k..][1..];
      FirstPairNone(s, k + 1);
    }
  }

  lemma {:induction false} NoneFirstPair(s: string, k: nat)
    requires k <= |s| && FirstPair(s, "%}", k) == |s|
    ensures NoPair(s[k..])
    decreases |s| - k
  {
    if k < |s| {
      NoneFirstPair(s, k + 1);
      NoPairCons(s[k..]);
      assert s[k + 1..] == s[k..][1..];
    }
  }

  lemma PairAtStart(s: string)
    ensures "%}" <= s <==> |s| > 1 && s[0] == '%' && s[1] == '}'
  {
  }

  lemma NoPairDrop(s: string)
    requires s != "" && NoPair(s)
    ensures !("%}" <= s) && NoPair(s[1..])
  {
    PairAtStart(s);
  }

  lemma NoPairCons(s: string)
    requires s != "" && !("%}" <= s) && NoPair(s[1..])
    ensures NoPair(s)
  {
    PairAtStart(s);
    forall i | 0 <= i < |s| - 1 && s[i] == '%'
      ensures s[i + 1] != '}'
    {
      assert i > 0 ==> s[1..][i - 1] == s[i] && s[1..][i] == s[i + 1];
    }
  }

  lemma NoPairAppend(x: string, y: string)
    requires EndsLine(x)
    ensures NoPair(x + y) <==> NoPair(x) && NoPair(y)
  {
    if NoPair(x + y) {
      forall i | 0 <= i < |x| - 1 && x[i] == '%'
        ensures x[i + 1] != '}'
      {
        assert (x + y)[i] == x[i] && (x + y)[i + 1] == x[i + 1];
      }
      forall i | 0 <= i < |y| - 1 && y[i] == '%'
        ensures y[i + 1] != '}'
      {
        assert (x + y)[|x| + i] == y[i] && (x + y)[|x| + i + 1] == y[i + 1];
      }
    }
  }

  lemma {:induction false} FirstPairSwap(a: string, c: Cut, k: nat)
    requires Sound(c) && k <= |a| + |c.u|
    requires FirstPair(Old(a, c), "%}", k) < |Old(a, c)| ==> FirstPair(Old(a, c), "%}", k) + 2 <= |a|
    ensures var r := FirstPair(Old(a, c), "%}", k);
            FirstPair(New(a, c), "%}", k) == if r == |Old(a, c)| then |New(a, c)| else r
    decreases |a| + |c.u| - k
  {
    var s := Old(a, c);
    var r := FirstPair(s, "%}", k);
    if r == |s| {
      NoneFirstPair(s, k);
      NoPairAhead(a, c, k);
      FirstPairNone(New(a, c), k);
    } else {
      OldDrop(a, c, k);
      PairAtFront(a[k..], c);
      if k < r {
        FirstPairSwap(a, c, k + 1);
      }
    }
  }

  lemma NoPairAhead(a: string, c: Cut, k: nat)
    requires Sound(c) && k <= |a| + |c.u| && NoPair(Old(a, c)[k..])
    ensures NoPair(New(a, c)[k..])
  {
    Whole(a, c.u);
    DropAppend(a + c.u, c.q, k);
    DropAppend(a + c.u, c.q2, k);
    NoPairSwap((a + c.u)[k..], c);
  }

  lemma PairAtFront(a: string, c: Cut)
    requires |a| >= 2
    ensures "%}" <= Old(a, c) <==> "%}" <= New(a, c)
  {
    assert Old(a, c)[..2] == a[..2] == New(a, c)[..2];
  }

  lemma NoPairSwap(v: string, c: Cut)
    requires Sound(c) && (v == "" || EndsLine(v)) && NoPair(v + c.q)
    ensures NoPair(v + c.q2)
  {
    if v == "" {
      assert v + c.q == c.q && v + c.q2 == c.q2;
    } else {
      NoPairAppend(v, c.q);
      NoPairAppend(v, c.q2);
    }
  }

  lemma BlockSwap(a: string, c: Cut)
    requires Sound(c) && MatchLength(BlockTemplateRule, Old(a, c)) <= |a|
    ensures MatchLength(BlockTemplateRule, New(a, c)) == MatchLength(BlockTemplateRule, Old(a, c))
  {
    Whole(a, c.u);
    PrefixLocal("{%", a + c.u, c.q);
    PrefixLocal("{%", a + c.u, c.q2);
    if "{%" <= a + c.u {
      FirstPairSwap(a, c, 2);
    }
  }

  lemma PrefixSwap(a: string, c: Cut, pat: string)
    requires EndsLine(c.u) && '\n' !in pat
    ensures pat <= Old(a, c) <==> pat <= a + c.u
    ensures pat <= New(a, c) <==> pat <= a + c.u
    ensures pat <= a + c.u ==> |pat| < |a + c.u|
  {
    Whole(a, c.u);
    PrefixLocal(pat, a + c.u, c.q);
    PrefixLocal(pat, a + c.u, c.q2);
  }

  lemma {:induction false} NoStop(s: string)
    requires '%' !in s && '}' !in s
    ensures NameLength(s) == |s|
  {
    if s != "" {
      NoStop(s[1..]);
    }
  }

  predicate NoStopNorBreak(pat: string) {
    '%' !in pat && '}' !in pat && '\n' !in pat
  }

  lemma PlaceholderPatterns()
    ensures NoStopNorBreak("{PIN_") && NoStopNorBreak("{PARAM_")
  {
  }

  lemma HiddenPattern()
    ensures '\n' !in HIDDEN_TEXT
  {
  }

  /** A placeholder that starts with `pat`, if `pat` has no stop and no line break in it. */
  lemma HeadSwap(a: string, c: Cut, pat: string)
    requires Sound(c) && NoStopNorBreak(pat)
    ensures pat <= New(a, c) <==> pat <= Old(a, c)
    ensures pat <= Old(a, c) && PlaceholderEnd(Old(a, c), |pat|) <= |a| ==>
              PlaceholderEnd(New(a, c), |pat|) == PlaceholderEnd(Old(a, c), |pat|)
  {
    PrefixSwap(a, c, pat);
    NoStop(pat);
    if pat <= Old(a, c) && PlaceholderEnd(Old(a, c), |pat|) <= |a| {
      PlaceholderSwap(a, c, pat);
    }
  }

  function PrefixedPlaceholder(one: string, other: string, s: string): (n: nat)
    ensures n == 0 || (|one| < n <= |s| && one <= s) || (|other| < n <= |s| && other <= s)
    ensures n == 0 || s[n - 1] == '}'
  {
    if one <= s then PlaceholderEnd(s, |one|) else if other <= s then PlaceholderEnd(s, |other|) else 0
  }

  lemma PlaceholderIs(s: string)
    ensures MatchLength(PlaceholderRule, s) == PrefixedPlaceholder("{PIN_", "{PARAM_", s)
  {
  }

  lemma PlaceholderRuleSwap(a: string, c: Cut, one: string, other: string)
    requires Sound(c) && NoStopNorBreak(one) && NoStopNorBreak(other)
    requires PrefixedPlaceholder(one, other, Old(a, c)) <= |a|
    ensures PrefixedPlaceholder(one, other, New(a, c)) == PrefixedPlaceholder(one, other, Old(a, c))
  {
    HeadSwap(a, c, one);
    HeadSwap(a, c, other);
  }

  lemma AnyPlaceholderSwap(a: string, c: Cut)
    requires Sound(c) && MatchLength(PlaceholderRule, Old(a, c)) <= |a|
    ensures MatchLength(PlaceholderRule, New(a, c)) == MatchLength(PlaceholderRule, Old(a, c))
  {
    PlaceholderIs(Old(a, c));
    PlaceholderIs(New(a, c));
    PlaceholderPatterns();
    PlaceholderRuleSwap(a, c, "{PIN_", "{PARAM_");
  }

  /** Every rule but the comment before a brace group either looks no further than `u` or stops before it. */
  lemma RuleSwap(rule: Rule, a: string, c: Cut)
    requires Sound(c)
    requires !IsLocal(rule) ==> MatchLength(rule, Old(a, c)) <= |a|
    requires rule == CommentBeforeBraceRule && MatchLength(rule, Old(a, c)) == 0 ==>
               MatchLength(CommentRule, Old(a, c)) <= |a|
    ensures MatchLength(rule, New(a, c)) == MatchLength(rule, Old(a, c)) <= |a| + |c.u|
  {
    if IsLocal(rule) {
      Whole(a, c.u);
      SpaceUpTo(a, c.u);
      LocalRule(rule, a + c.u, c.q);
      LocalRule(rule, a + c.u, c.q2);
    } else if rule == CommentBeforeBraceRule {
      CommentBeforeBraceSwap(a, c);
    } else if rule == PlaceholderRule {
      AnyPlaceholderSwap(a, c);
    } else {
      BlockSwap(a, c);
    }
  }

  /** The kinds of token whose rules look past their own end. */
  predicate LooksAhead(kind: Kind) {
    kind == Comment || kind == Placeholder || kind == Template
  }

  /** The token ends before `u`, or its rule looks no further than `u`. */
  predicate InReach(t: Token, a: string) {
    |t.text| <= |a| || !LooksAhead(t.kind)
  }

  lemma SpecFrom(k: nat, s: string)
    requires k < |CONFIG_SPEC|
    ensures FirstMatch(CONFIG_SPEC[k..], s) ==
            if MatchLength(CONFIG_SPEC[k], s) > 0
            then Some(Token(RuleKind(CONFIG_SPEC[k]), s[..MatchLength(CONFIG_SPEC[k], s)]))
            else FirstMatch(CONFIG_SPEC[k + 1..], s)
    ensures k + 1 == |CONFIG_SPEC| ==> FirstMatch(CONFIG_SPEC[k + 1..], s).None?
  {
    FirstMatchFrom(CONFIG_SPEC[k], CONFIG_SPEC[k + 1..], s);
    assert CONFIG_SPEC[k..] == [CONFIG_SPEC[k]] + CONFIG_SPEC[k + 1..];
  }

  /** A comment whose first rule fails is matched by the second, to the end of its line. */
  lemma CommentInReach(s: string, a: string)
    requires MatchLength(CommentBeforeBraceRule, s) == 0
    requires FirstMatch(CONFIG_SPEC[1..], s).Some? && InReach(FirstMatch(CONFIG_SPEC[1..], s).value, a)
    ensures MatchLength(CommentRule, s) <= |a|
  {
    assert CONFIG_SPEC[1] == CommentBeforeBraceRule && CONFIG_SPEC[2] == CommentRule;
    SpecFrom(1, s);
    SpecFrom(2, s);
  }

  lemma RuleReach(k: nat, s: string, a: string)
    requires k < |CONFIG_SPEC| && FirstMatch(CONFIG_SPEC[k..], s).Some?
    requires InReach(FirstMatch(CONFIG_SPEC[k..], s).value, a)
    ensures !IsLocal(CONFIG_SPEC[k]) ==> MatchLength(CONFIG_SPEC[k], s) <= |a|
    ensures CONFIG_SPEC[k] == CommentBeforeBraceRule && MatchLength(CONFIG_SPEC[k], s) == 0 ==>
              MatchLength(CommentRule, s) <= |a|
  {
    SpecFrom(k, s);
    if CONFIG_SPEC[k] == CommentBeforeBraceRule && MatchLength(CONFIG_SPEC[k], s) == 0 {
      assert k == 1;
      CommentInReach(s, a);
    }
  }

  lemma {:induction false} FirstMatchSwap(a: string, c: Cut, k: nat)
    requires Sound(c) && k < |CONFIG_SPEC|
    requires FirstMatch(CONFIG_SPEC[k..], Old(a, c)).Some?
    requires InReach(FirstMatch(CONFIG_SPEC[k..], Old(a, c)).value, a)
    ensures FirstMatch(CONFIG_SPEC[k..], New(a, c)) == FirstMatch(CONFIG_SPEC[k..], Old(a, c))
    decreases |CONFIG_SPEC| - k
  {
    RuleReach(k, Old(a, c), a);
    RuleSwap(CONFIG_SPEC[k], a, c);
    SpecFrom(k, Old(a, c));
    SpecFrom(k, New(a, c));
    var n := MatchLength(CONFIG_SPEC[k], Old(a, c));
    if n > 0 {
      SameStart(a, c, n);
    } else {
      FirstMatchSwap(a, c, k + 1);
    }
  }

  lemma SameStart(a: string, c: Cut, n: nat)
    requires n <= |a| + |c.u|
    ensures Old(a, c)[..n] == New(a, c)[..n]
  {
    TakeAppend(a + c.u, c.q, n);
    TakeAppend(a + c.u, c.q2, n);
  }

  /** The token at the front does not depend on what follows `u`. */
  lemma LexSwap(a: string, c: Cut)
    requires Sound(c) && InReach(Lex(Old(a, c)), a)
    ensures Lex(New(a, c)) == Lex(Old(a, c))
  {
    LaterRuleMatches(Old(a, c), 0);
    assert CONFIG_SPEC[0..] == CONFIG_SPEC;
    FirstMatchSwap(a, c, 0);
  }
}
