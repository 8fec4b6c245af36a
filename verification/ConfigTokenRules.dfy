/** The token rules as the patterns they stand for: which prefixes of a text each of them matches, and that the
    tokenizer takes the longest or, for the reluctant patterns, the shortest of them. */
module ConfigTokenRules {
  import opened Text
  import opened ConfigTokens

  // -------------------------------------------------------------------------------------------- the patterns

  predicate LineIsOver(s: string) {
    s == "" || s[0] == '\n' || (|s| > 1 && s[0] == '\r' && s[1] == '\n')
  }

  /** Nothing but blanks, then the sign of a comment at index `b`. */
  predicate CommentAt(s: string, b: nat) {
    b < |s| && AllBlank(s[..b]) && (s[b] == '#' || s[b] == ';')
  }

  /** A brace, at least one other character than a closing brace, and the first closing brace. */
  predicate GroupAhead(s: string) {
    exists j | 2 <= j < |s| :: s[0] == '{' && s[j] == '}' && '}' !in s[1..j]
  }

  /** Behind a header: blanks, perhaps a comment, and the end of the line. */
  predicate HeaderMayEnd(s: string) {
    exists i | 0 <= i <= |s| ::
      AllBlank(s[..i]) &&
      (LineIsOver(s[i..])
       || (i < |s| && (s[i] == '#' || s[i] == ';')
           && exists j | i < j <= |s| :: '\r' !in s[i..j] && '\n' !in s[i..j] && LineIsOver(s[j..])))
  }

  predicate HiddenMatches(s: string, n: nat)
    requires n <= |s|
  {
    exists b | 0 <= b <= n - |HIDDEN_TEXT| ::
      AllBlank(s[..b]) && s[b..b + |HIDDEN_TEXT|] == HIDDEN_TEXT && AllBlank(s[b + |HIDDEN_TEXT|..n])
      && LineIsOver(s[n..])
  }

  predicate CommentMatches(s: string, n: nat)
    requires n <= |s|
  {
    exists b | 0 <= b < n :: CommentAt(s, b) && '\n' !in s[b + 1..n]
  }

  predicate PlaceholderMatches(s: string, n: nat, prefix: string)
    requires n <= |s|
  {
    && n > |prefix| + 1 && s[..|prefix|] == prefix && s[n - 1] == '}'
    && '%' !in s[|prefix|..n - 1] && '}' !in s[|prefix|..n - 1]
  }

  /** The pattern of a template: an opening and a closing pair, between them anything or, if `oneLine`, no line
      break. */
  predicate TemplateMatches(s: string, n: nat, open: string, close: string, oneLine: bool)
    requires n <= |s| && |open| == |close| == 2
  {
    n >= 4 && s[..2] == open && s[n - 2..n] == close && (oneLine ==> '\n' !in s[2..n - 2])
  }

  predicate SectionMatches(s: string, n: nat)
    requires n <= |s|
  {
    n >= 3 && s[0] == '[' && s[n - 1] == ']' && '\n' !in s[..n] && HeaderMayEnd(s[n..])
  }

  /** The rule matches the first `n` characters of `s`. */
  predicate Matches(rule: Rule, s: string, n: nat) {
    n <= |s| &&
    match rule
    case HiddenRule => HiddenMatches(s, n)
    case CommentBeforeBraceRule => CommentMatches(s, n) && GroupAhead(s[n..])
    case CommentRule => CommentMatches(s, n)
    case WhitespaceRule => n > 0 && AllSpace(s[..n])
    case SectionRule => SectionMatches(s, n)
    case WordRule => n > 0 && IsWordChar(s[0]) && forall i | 0 < i < n :: IsWordChar(s[i]) || s[i] == '%'
    case AssignRule => n == 1 && (s[0] == ':' || s[0] == '=')
    case PlaceholderRule => PlaceholderMatches(s, n, "{PIN_") || PlaceholderMatches(s, n, "{PARAM_")
    case BlockTemplateRule => TemplateMatches(s, n, "{%", "%}", false)
    case NoteTemplateRule => TemplateMatches(s, n, "{#", "#}", true)
    case ExprTemplateRule => TemplateMatches(s, n, "{{", "}}", true)
    case UnknownRule => n == 1 && !IsSpace(s[0])
  }

  /** Patterns with a reluctant repetition take as little as they can. */
  predicate IsReluctant(rule: Rule) {
    rule == CommentBeforeBraceRule || rule == BlockTemplateRule
  }

  /** `n` is what the rule takes of `s`: nothing if it matches nowhere, else the shortest or the longest match. */
  ghost predicate Takes(rule: Rule, s: string, n: nat) {
    if n == 0 then forall m: nat :: !Matches(rule, s, m)
    else Matches(rule, s, n) && forall m: nat | Matches(rule, s, m) :: if IsReluctant(rule) then n <= m else m <= n
  }

  // ------------------------------------------------------------------------------------------- rule by rule

  lemma Absent(s: string, k: nat, n: nat, c: char)
    requires k <= n <= |s|
    ensures c !in s[k..n] <==> forall i | k <= i < n :: s[i] != c
  {
    forall i | k <= i < n ensures s[i] == s[k..n][i - k] {
    }
  }

  lemma Front(s: string, n: nat)
    requires n <= |s|
    ensures forall i | 0 <= i < n :: s[..n][i] == s[i]
  {
  }

  lemma LineIsOverIs(s: string)
    ensures LineIsOver(s) <==> AtLineEnd(s)
  {
  }

  lemma CommentAtIs(s: string)
    ensures StartsComment(s) <==> CommentAt(s, BlankLength(s))
    ensures forall b | CommentAt(s, b) :: b == BlankLength(s)
  {
    BlankBefore(s);
    forall b | CommentAt(s, b) ensures b == BlankLength(s) {
      BlankLengthOnly(s, b);
    }
  }

  lemma {:induction false} FirstIn(s: string, c: char) returns (k: nat)
    requires c in s
    ensures k < |s| && s[k] == c && c !in s[..k]
  {
    if s[0] == c {
      k := 0;
    } else {
      var j := FirstIn(s[1..], c);
      k := j + 1;
      assert s[..k] == [s[0]] + s[1..][..j];
    }
  }

  lemma GroupAheadIs(s: string)
    ensures GroupAhead(s) <==> BraceGroupAt(s)
  {
    if BraceGroupAt(s) {
      var k := FirstIn(s[2..], '}');
      assert s[1..k + 2] == [s[1]] + s[2..][..k];
      assert s[k + 2] == '}';
    }
    if GroupAhead(s) {
      var j :| 2 <= j < |s| && s[0] == '{' && s[j] == '}' && '}' !in s[1..j];
      assert s[1] == s[1..j][0];
      assert s[2..][j - 2] == s[j];
    }
  }

  lemma WhitespaceTakes(s: string)
    ensures Takes(WhitespaceRule, s, MatchLength(WhitespaceRule, s))
  {
    SpaceBefore(s);
    var n := SpaceLength(s);
    forall m: nat | Matches(WhitespaceRule, s, m) ensures m <= n && n > 0 {
      Front(s, m);
      assert IsSpace(s[..m][0]);
    }
  }

  lemma {:induction false} WordTailIs(s: string)
    ensures var n := WordTailLength(s);
            (forall i | 0 <= i < n :: IsWordTail(s[i])) && (n < |s| ==> !IsWordTail(s[n]))
  {
    if s != "" && IsWordTail(s[0]) {
      WordTailIs(s[1..]);
    }
  }

  lemma WordTakes(s: string)
    ensures Takes(WordRule, s, MatchLength(WordRule, s))
  {
    if s != "" && IsWordChar(s[0]) {
      WordTailIs(s[1..]);
      var n := 1 + WordTailLength(s[1..]);
      forall i | 0 < i < n ensures IsWordChar(s[i]) || s[i] == '%' {
        assert IsWordTail(s[1..][i - 1]);
      }
      assert n < |s| ==> !IsWordTail(s[n]);
    }
  }

  lemma CommentTakes(s: string)
    ensures Takes(CommentRule, s, MatchLength(CommentRule, s))
  {
    CommentAtIs(s);
    LineLengthIs(s);
    BlankBefore(s);
    var b, n := BlankLength(s), LineLength(s);
    if StartsComment(s) {
      CommentWithinLine(s);
      Absent(s, b + 1, n, '\n');
      forall m: nat | Matches(CommentRule, s, m) ensures m <= n {
        Absent(s, b + 1, m, '\n');
      }
    } else {
      forall m: nat ensures !Matches(CommentRule, s, m) {
      }
    }
  }

  lemma CommentWithinLine(s: string)
    requires StartsComment(s)
    ensures BlankLength(s) < LineLength(s)
  {
    BlankBefore(s);
    LineLengthIs(s);
  }

  lemma BeforeBraceFound(s: string, k: nat)
    requires StartsComment(s) && BlankLength(s) < k < LineLength(s) && BraceGroupAt(s[k..])
    ensures CommentMatches(s, k) && GroupAhead(s[k..])
  {
    CommentAtIs(s);
    LineLengthIs(s);
    GroupAheadIs(s[k..]);
    Absent(s, BlankLength(s) + 1, k, '\n');
  }

  lemma {:induction false} GroupFirst(s: string, k: nat, end: nat, i: nat)
    requires k <= i < end <= |s| && BraceGroupAt(s[i..])
    ensures FirstBraceGroup(s, k, end) <= i
    decreases end - k
  {
    if k < i && !BraceGroupAt(s[k..]) {
      GroupFirst(s, k + 1, end, i);
    }
  }

  lemma {:induction false} GroupFound(s: string, k: nat, end: nat)
    requires k <= end <= |s| && FirstBraceGroup(s, k, end) < end
    ensures BraceGroupAt(s[FirstBraceGroup(s, k, end)..])
    decreases end - k
  {
    if !BraceGroupAt(s[k..]) {
      GroupFound(s, k + 1, end);
    }
  }

  lemma BeforeBraceBound(s: string, m: nat)
    requires m <= |s| && CommentMatches(s, m) && GroupAhead(s[m..])
    ensures StartsComment(s) && BlankLength(s) < m < LineLength(s) && BraceGroupAt(s[m..])
  {
    CommentAtIs(s);
    LineLengthIs(s);
    GroupAheadIs(s[m..]);
    assert s[m] == s[m..][0] == '{';
    Absent(s, BlankLength(s) + 1, m, '\n');
    CommentWithinLine(s);
  }

  lemma CommentBeforeBraceTakes(s: string)
    ensures Takes(CommentBeforeBraceRule, s, MatchLength(CommentBeforeBraceRule, s))
  {
    var b, end, n := BlankLength(s), LineLength(s), MatchLength(CommentBeforeBraceRule, s);
    if n > 0 {
      CommentWithinLine(s);
      GroupFound(s, b + 1, end);
      BeforeBraceFound(s, n);
    }
    forall m: nat | Matches(CommentBeforeBraceRule, s, m) ensures 0 < n <= m {
      BeforeBraceBound(s, m);
      GroupFirst(s, b + 1, end, m);
    }
  }

  lemma {:induction false} CommentBodyIs(s: string)
    ensures var n := CommentBody(s);
            && '\r' !in s[..n] && '\n' !in s[..n] && (n < |s| ==> s[n] == '\r' || s[n] == '\n')
  {
    if s != "" && s[0] != '\r' && s[0] != '\n' {
      CommentBodyIs(s[1..]);
      var n := CommentBody(s[1..]);
      assert s[..n + 1] == [s[0]] + s[1..][..n];
    }
  }

  lemma CommentBodyOnly(s: string, n: nat)
    requires n <= |s| && '\r' !in s[..n] && '\n' !in s[..n] && LineIsOver(s[n..])
    ensures CommentBody(s) == n
  {
    CommentBodyIs(s);
    var k := CommentBody(s);
    Absent(s, 0, n, '\r');
    Absent(s, 0, n, '\n');
    Absent(s, 0, k, '\r');
    Absent(s, 0, k, '\n');
    if n < |s| {
      assert s[n..][0] == s[n];
    }
  }

  lemma HeaderTailIs(s: string)
    ensures HeaderTail(s) <==> HeaderMayEnd(s)
  {
    if HeaderTail(s) {
      HeaderTailShown(s);
    }
    if HeaderMayEnd(s) {
      var i :| 0 <= i <= |s| && AllBlank(s[..i]) &&
               (LineIsOver(s[i..])
                || (i < |s| && (s[i] == '#' || s[i] == ';')
                    && exists j | i < j <= |s| :: '\r' !in s[i..j] && '\n' !in s[i..j] && LineIsOver(s[j..])));
      HeaderTailFound(s, i);
    }
  }

  lemma HeaderTailShown(s: string)
    requires HeaderTail(s)
    ensures HeaderMayEnd(s)
  {
    BlankBefore(s);
    var b := BlankLength(s);
    var r := s[b..];
    if r != "" && (r[0] == '#' || r[0] == ';') {
      CommentBodyIs(r);
      LineIsOverIs(r[CommentBody(r)..]);
      var j := b + CommentBody(r);
      assert s[b..j] == r[..CommentBody(r)] && s[j..] == r[CommentBody(r)..];
      assert b < j;
    } else {
      LineIsOverIs(r);
    }
  }

  lemma HeaderTailFound(s: string, i: nat)
    requires i <= |s| && AllBlank(s[..i])
    requires LineIsOver(s[i..])
             || (i < |s| && (s[i] == '#' || s[i] == ';')
                 && exists j | i < j <= |s| :: '\r' !in s[i..j] && '\n' !in s[i..j] && LineIsOver(s[j..]))
    ensures HeaderTail(s)
  {
    LineIsOverIs(s[i..]);
    if i < |s| {
      assert s[i..][0] == s[i];
    }
    BlankLengthOnly(s, i);
    if i < |s| && (s[i] == '#' || s[i] == ';') {
      var j :| i < j <= |s| && '\r' !in s[i..j] && '\n' !in s[i..j] && LineIsOver(s[j..]);
      assert s[i..][..j - i] == s[i..j] && s[i..][j - i..] == s[j..];
      CommentBodyOnly(s[i..], j - i);
      LineIsOverIs(s[j..]);
    }
  }

  lemma {:induction false} CloseHolds(tail: string -> bool, s: string, k: nat, r: nat)
    requires k <= |s| && r == LastClose(tail, s, k) > 0
    ensures 2 <= r < k && s[r] == ']' && tail(s[r + 1..])
  {
    if r != k - 1 {
      CloseHolds(tail, s, k - 1, r);
    }
  }

  lemma {:induction false} CloseIsLast(tail: string -> bool, s: string, k: nat, i: nat)
    requires 2 <= i < k <= |s| && s[i] == ']' && tail(s[i + 1..])
    ensures i <= LastClose(tail, s, k)
  {
    if i < k - 1 {
      CloseIsLast(tail, s, k - 1, i);
    }
  }

  lemma SectionFound(s: string, i: nat)
    requires 2 <= i < LineLength(s) && s[0] == '[' && s[i] == ']' && HeaderTail(s[i + 1..])
    ensures SectionMatches(s, i + 1)
  {
    HeaderTailIs(s[i + 1..]);
    LineLengthIs(s);
    Absent(s, 0, i + 1, '\n');
    assert s[..i + 1] == s[0..i + 1];
  }

  lemma SectionBound(s: string, i: nat)
    requires i < |s| && SectionMatches(s, i + 1)
    ensures 2 <= i <= HeaderClose(s, LineLength(s))
  {
    HeaderTailIs(s[i + 1..]);
    WithinLine(s, i + 1, LineLength(s));
    CloseIsLast(HeaderTail, s, LineLength(s), i);
  }

  lemma SectionTaken(s: string, end: nat, r: nat, n: nat)
    requires end == LineLength(s) && r == HeaderClose(s, end) > 0 && s[0] == '[' && n == r + 1
    ensures SectionMatches(s, n)
  {
    CloseHolds(HeaderTail, s, end, r);
    SectionFound(s, r);
  }

  lemma SectionFirst(s: string, n: nat)
    requires n == MatchLength(SectionRule, s) > 0
    ensures SectionMatches(s, n)
  {
    SectionTaken(s, LineLength(s), n - 1, n);
  }

  lemma SectionMost(s: string, m: nat)
    requires m <= |s| && SectionMatches(s, m)
    ensures 0 < m <= MatchLength(SectionRule, s)
  {
    SectionBound(s, m - 1);
  }

  lemma SectionTakes(s: string, n: nat)
    requires n == MatchLength(SectionRule, s)
    ensures Takes(SectionRule, s, n)
  {
    if n > 0 {
      SectionFirst(s, n);
    }
    forall m: nat | Matches(SectionRule, s, m) ensures 0 < m <= n {
      SectionMost(s, m);
    }
  }

  lemma WithinLine(s: string, m: nat, end: nat)
    requires m <= |s| && '\n' !in s[..m] && end == LineLength(s)
    ensures m <= end
  {
    LineLengthIs(s);
    Absent(s, 0, m, '\n');
  }

  lemma HiddenSplit(s: string) returns (b: nat, t: nat)
    requires MatchLength(HiddenRule, s) > 0
    ensures MatchLength(HiddenRule, s) == b + |HIDDEN_TEXT| + t && b + |HIDDEN_TEXT| + t <= |s|
    ensures b == BlankLength(s) && HIDDEN_TEXT <= s[b..]
    ensures t == BlankLength(s[b + |HIDDEN_TEXT|..]) && AtLineEnd(s[b + |HIDDEN_TEXT|..][t..])
  {
    b := BlankLength(s);
    t := BlankLength(s[b + |HIDDEN_TEXT|..]);
  }

  lemma HiddenMatch(s: string, h: nat)
    requires MatchLength(HiddenRule, s) > 0 && h == |HIDDEN_TEXT|
    ensures HiddenMatches(s, MatchLength(HiddenRule, s))
  {
    var b, t := HiddenSplit(s);
    BlankBefore(s);
    BlankBefore(s[b + h..]);
    LineIsOverIs(s[b + h..][t..]);
    HiddenParts(s, b, h, t);
  }

  lemma HiddenParts(s: string, b: nat, h: nat, t: nat)
    requires h == |HIDDEN_TEXT| && b + h + t <= |s|
    requires AllBlank(s[..b]) && HIDDEN_TEXT <= s[b..] && AllBlank(s[b + h..][..t]) && LineIsOver(s[b + h..][t..])
    ensures HiddenMatches(s, b + h + t)
  {
    var n := b + h + t;
    assert s[b..b + h] == s[b..][..h];
    assert s[b + h..n] == s[b + h..][..t];
    assert s[n..] == s[b + h..][t..];
  }

  lemma HiddenTakes(s: string)
    ensures Takes(HiddenRule, s, MatchLength(HiddenRule, s))
  {
    var n := MatchLength(HiddenRule, s);
    if n > 0 {
      HiddenMatch(s, |HIDDEN_TEXT|);
    }
    forall m: nat | Matches(HiddenRule, s, m) ensures m == n && m > 0 {
      HiddenFound(s, m);
    }
  }

  lemma HiddenFront(s: string, b: nat, h: nat)
    requires h == |HIDDEN_TEXT| && b + h <= |s| && AllBlank(s[..b]) && s[b..b + h] == HIDDEN_TEXT
    ensures BlankLength(s) == b && HIDDEN_TEXT <= s[b..]
  {
    assert s[b] == s[b..b + h][0] == '#';
    BlankLengthOnly(s, b);
    assert s[b..][..h] == s[b..b + h];
  }

  lemma HiddenBack(r: string, t: nat)
    requires t <= |r| && AllBlank(r[..t]) && LineIsOver(r[t..])
    ensures BlankLength(r) == t && AtLineEnd(r[t..])
  {
    LineIsOverIs(r[t..]);
    if t < |r| {
      assert r[t] == r[t..][0];
    }
    BlankLengthOnly(r, t);
  }

  lemma HiddenLength(s: string, b: nat, t: nat)
    requires BlankLength(s) == b && HIDDEN_TEXT <= s[b..]
    requires BlankLength(s[b + |HIDDEN_TEXT|..]) == t && AtLineEnd(s[b + |HIDDEN_TEXT|..][t..])
    ensures MatchLength(HiddenRule, s) == b + |HIDDEN_TEXT| + t
  {
  }

  lemma HiddenFound(s: string, m: nat)
    requires m <= |s| && HiddenMatches(s, m)
    ensures m == MatchLength(HiddenRule, s) && m > 0
  {
    var h := |HIDDEN_TEXT|;
    var b :| 0 <= b <= m - h && AllBlank(s[..b]) && s[b..b + h] == HIDDEN_TEXT && AllBlank(s[b + h..m])
             && LineIsOver(s[m..]);
    HiddenFront(s, b, h);
    var r, t := s[b + h..], m - (b + h);
    assert r[..t] == s[b + h..m] && r[t..] == s[m..];
    HiddenBack(r, t);
    HiddenLength(s, b, t);
  }

  lemma {:induction false} NameIs(s: string)
    ensures var n := NameLength(s); '%' !in s[..n] && '}' !in s[..n]
  {
    if s != "" && s[0] != '%' && s[0] != '}' {
      NameIs(s[1..]);
      var n := NameLength(s[1..]);
      assert s[..n + 1] == [s[0]] + s[1..][..n];
    }
  }

  lemma PlaceholderIs(s: string, prefix: string)
    requires prefix <= s
    ensures var n := PlaceholderEnd(s, |prefix|);
            && (n > 0 ==> PlaceholderMatches(s, n, prefix))
            && forall m: nat | m <= |s| && PlaceholderMatches(s, m, prefix) :: m == n
  {
    var p := |prefix|;
    var r := s[p..];
    NameIs(r);
    var k := NameLength(r);
    var n := PlaceholderEnd(s, p);
    if n > 0 {
      assert s[p..n - 1] == r[..k];
    }
    forall m: nat | m <= |s| && PlaceholderMatches(s, m, prefix) ensures m == n {
      var j := m - 1 - p;
      assert r[..j] == s[p..m - 1] && r[j] == s[m - 1] == '}';
      Absent(r, 0, j, '%');
      Absent(r, 0, j, '}');
      Absent(r, 0, k, '}');
    }
  }

  lemma PlaceholderTakes(s: string)
    ensures Takes(PlaceholderRule, s, MatchLength(PlaceholderRule, s))
  {
    if "{PIN_" <= s {
      PlaceholderIs(s, "{PIN_");
    } else if "{PARAM_" <= s {
      PlaceholderIs(s, "{PARAM_");
    }
    forall m: nat | Matches(PlaceholderRule, s, m) ensures m == MatchLength(PlaceholderRule, s) {
      if PlaceholderMatches(s, m, "{PIN_") {
        assert "{PIN_" <= s;
      } else {
        Front(s, 7);
        assert s[2] == "{PARAM_"[2];
        assert !("{PIN_" <= s);
      }
    }
  }

  lemma {:induction false} PairFirst(s: string, pat: string, k: nat, i: nat)
    requires k <= i < |s| && pat <= s[i..]
    ensures FirstPair(s, pat, k) <= i
    decreases |s| - k
  {
    if k < i && !(pat <= s[k..]) {
      PairFirst(s, pat, k + 1, i);
    }
  }

  lemma {:induction false} PairLast(s: string, pat: string, k: nat, i: nat)
    requires 2 <= i < k <= |s| && pat <= s[i..]
    ensures i <= LastPair(s, pat, k)
  {
    if i < k - 1 {
      PairLast(s, pat, k - 1, i);
    }
  }

  lemma PairAt(s: string, pat: string, m: nat)
    requires |pat| == 2 && 2 <= m <= |s|
    ensures s[m - 2..m] == pat <==> pat <= s[m - 2..]
  {
    assert s[m - 2..][..2] == s[m - 2..m];
  }

  lemma BlockTemplateTakes(s: string)
    ensures Takes(BlockTemplateRule, s, MatchLength(BlockTemplateRule, s))
  {
    if "{%" <= s {
      var k := FirstPair(s, "%}", 2);
      if k < |s| {
        PairAt(s, "%}", k + 2);
      }
      forall m: nat | Matches(BlockTemplateRule, s, m) ensures k < |s| && k + 2 <= m {
        PairAt(s, "%}", m);
        PairFirst(s, "%}", 2, m - 2);
      }
    }
  }

  lemma TemplateOnLine(s: string, m: nat, open: string, close: string)
    requires |open| == |close| == 2 && '\n' !in open && '\n' !in close
    requires m <= |s| && TemplateMatches(s, m, open, close, true)
    ensures m <= LineLength(s) && close <= s[m - 2..]
  {
    PairAt(s, close, m);
    assert s[0] == s[..2][0] && s[1] == s[..2][1];
    assert s[m - 2] == s[m - 2..m][0] && s[m - 1] == s[m - 2..m][1];
    Absent(s, 2, m - 2, '\n');
    Absent(s, 0, m, '\n');
    assert s[..m] == s[0..m];
    WithinLine(s, m, LineLength(s));
  }

  lemma TemplateFound(s: string, k: nat, open: string, close: string)
    requires |open| == |close| == 2 && open <= s && 2 <= k < LineLength(s) && close <= s[k..]
    ensures k + 2 <= |s| && TemplateMatches(s, k + 2, open, close, true)
  {
    LineLengthIs(s);
    PairAt(s, close, k + 2);
    Absent(s, 2, k, '\n');
    assert s[..2] == open;
  }

  lemma TemplateBound(s: string, m: nat, open: string, close: string)
    requires |open| == |close| == 2 && '\n' !in open && '\n' !in close
    requires m <= |s| && TemplateMatches(s, m, open, close, true)
    ensures m - 2 <= LastPair(s, close, LineLength(s))
  {
    TemplateOnLine(s, m, open, close);
    PairLast(s, close, LineLength(s), m - 2);
  }

  lemma NoteTemplateTakes(s: string)
    ensures Takes(NoteTemplateRule, s, MatchLength(NoteTemplateRule, s))
  {
    var k := LastPair(s, "#}", LineLength(s));
    if "{#" <= s && k > 0 {
      TemplateFound(s, k, "{#", "#}");
    }
    forall m: nat | Matches(NoteTemplateRule, s, m) ensures m <= MatchLength(NoteTemplateRule, s) && m > 0 {
      TemplateBound(s, m, "{#", "#}");
      assert "{#" <= s;
    }
  }

  lemma ExprTemplateTakes(s: string)
    ensures Takes(ExprTemplateRule, s, MatchLength(ExprTemplateRule, s))
  {
    var k := LastPair(s, "}}", LineLength(s));
    if "{{" <= s && k > 0 {
      TemplateFound(s, k, "{{", "}}");
    }
    forall m: nat | Matches(ExprTemplateRule, s, m) ensures m <= MatchLength(ExprTemplateRule, s) && m > 0 {
      TemplateBound(s, m, "{{", "}}");
      assert "{{" <= s;
    }
  }

  /** Every rule takes the longest match of its pattern, a reluctant one the shortest, and nothing when there is
      none. */
  lemma RuleTakes(rule: Rule, s: string)
    ensures Takes(rule, s, MatchLength(rule, s))
  {
    match rule
    case HiddenRule => HiddenTakes(s);
    case CommentBeforeBraceRule => CommentBeforeBraceTakes(s);
    case CommentRule => CommentTakes(s);
    case WhitespaceRule => WhitespaceTakes(s);
    case SectionRule => SectionTakes(s, MatchLength(rule, s));
    case WordRule => WordTakes(s);
    case AssignRule =>
    case PlaceholderRule => PlaceholderTakes(s);
    case BlockTemplateRule => BlockTemplateTakes(s);
    case NoteTemplateRule => NoteTemplateTakes(s);
    case ExprTemplateRule => ExprTemplateTakes(s);
    case UnknownRule =>
  }

  // ------------------------------------------------------------------------------------------ the first rule

  /** The order in which the rules are tried. */
  function Rank(rule: Rule): nat {
    match rule
    case HiddenRule => 0
    case CommentBeforeBraceRule => 1
    case CommentRule => 2
    case WhitespaceRule => 3
    case SectionRule => 4
    case WordRule => 5
    case AssignRule => 6
    case PlaceholderRule => 7
    case BlockTemplateRule => 8
    case NoteTemplateRule => 9
    case ExprTemplateRule => 10
    case UnknownRule => 11
  }

  lemma SpecByRank(rule: Rule)
    ensures |CONFIG_SPEC| == 12 && Rank(rule) < 12 && CONFIG_SPEC[Rank(rule)] == rule
  {
  }

  lemma {:induction false} FirstOf(spec: seq<Rule>, s: string) returns (k: nat)
    requires FirstMatch(spec, s).Some?
    ensures k < |spec| && MatchLength(spec[k], s) > 0 && forall i | 0 <= i < k :: MatchLength(spec[i], s) == 0
    ensures FirstMatch(spec, s).value == Token(RuleKind(spec[k]), s[..MatchLength(spec[k], s)])
  {
    if MatchLength(spec[0], s) > 0 {
      k := 0;
    } else {
      var j := FirstOf(spec[1..], s);
      k := j + 1;
      assert forall i | 0 < i < k :: spec[i] == spec[1..][i - 1];
    }
  }

  lemma EarlierRule(k: nat, other: Rule)
    requires k < |CONFIG_SPEC| && Rank(other) < Rank(CONFIG_SPEC[k])
    ensures Rank(other) < k && CONFIG_SPEC[Rank(other)] == other
  {
    SpecByRank(other);
    SpecByRank(CONFIG_SPEC[k]);
    Distinct(k, Rank(CONFIG_SPEC[k]));
  }

  lemma Distinct(i: nat, j: nat)
    requires i < |CONFIG_SPEC| && j < |CONFIG_SPEC| && CONFIG_SPEC[i] == CONFIG_SPEC[j]
    ensures i == j
  {
  }

  /** The next token of any text: of the rules that match there at all, the first decides, and it takes the longest or,
      if it is reluctant, the shortest match of its pattern. */
  lemma FirstRuleDecides(s: string) returns (rule: Rule)
    requires s != ""
    ensures Lex(s).kind == RuleKind(rule) && Lex(s).text == s[..|Lex(s).text|]
    ensures Takes(rule, s, |Lex(s).text|) && |Lex(s).text| > 0
    ensures forall other, m: nat | Rank(other) < Rank(rule) :: !Matches(other, s, m)
  {
    LaterRuleMatches(s, 0);
    assert CONFIG_SPEC[0..] == CONFIG_SPEC;
    var k := FirstOf(CONFIG_SPEC, s);
    rule := CONFIG_SPEC[k];
    RuleTakes(rule, s);
    forall other, m: nat | Rank(other) < Rank(rule) ensures !Matches(other, s, m) {
      EarlierRule(k, other);
      RuleTakes(other, s);
    }
  }
}
