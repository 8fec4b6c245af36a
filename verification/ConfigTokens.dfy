/** The token specification of the config parser: an ordered list of rules, the first rule that matches at the
    front of the remaining text wins. Each rule states how many characters its pattern matches, 0 for no match. */
module ConfigTokens {
  import opened Text

  datatype Kind =
    | HiddenOptionComment
    | Comment
    | Whitespace
    | Section
    | Word
    | AssignOp
    | Placeholder
    | Template
    | Unknown

  datatype Rule =
    | HiddenRule
    | CommentBeforeBraceRule
    | CommentRule
    | WhitespaceRule
    | SectionRule
    | WordRule
    | AssignRule
    | PlaceholderRule
    | BlockTemplateRule
    | NoteTemplateRule
    | ExprTemplateRule
    | UnknownRule

  datatype Token = Token(kind: Kind, text: string)

  const CONFIG_SPEC: seq<Rule> := [
    HiddenRule, CommentBeforeBraceRule, CommentRule, WhitespaceRule, SectionRule, WordRule, AssignRule,
    PlaceholderRule, BlockTemplateRule, NoteTemplateRule, ExprTemplateRule, UnknownRule
  ]

  const HIDDEN_TEXT := "# SUPPLEMENTAL / UNDOCUMENTED PARAMETERS"

  function RuleKind(rule: Rule): Kind {
    match rule
    case HiddenRule => HiddenOptionComment
    case CommentBeforeBraceRule => Comment
    case CommentRule => Comment
    case WhitespaceRule => Whitespace
    case SectionRule => Section
    case WordRule => Word
    case AssignRule => AssignOp
    case PlaceholderRule => Placeholder
    case BlockTemplateRule => Template
    case NoteTemplateRule => Template
    case ExprTemplateRule => Template
    case UnknownRule => Unknown
  }

  /** The name a token kind is reported under. */
  function KindName(kind: Kind): string {
    match kind
    case HiddenOptionComment => "hidden_option_comment"
    case Comment => "comment"
    case Whitespace => "whitespace"
    case Section => "section"
    case Word => "word"
    case AssignOp => "assign_op"
    case Placeholder => "placeholder"
    case Template => "template"
    case Unknown => "unknown"
  }

  /** `\r?\n` or the end of the text. */
  predicate AtLineEnd(s: string) {
    s == "" || s[0] == '\n' || "\r\n" <= s
  }

  /** Blanks, `#` or `;`: how every comment starts. */
  predicate StartsComment(s: string) {
    var b := BlankLength(s);
    b < |s| && (s[b] == '#' || s[b] == ';')
  }

  /** `{`, one or more characters other than `}`, then `}`. */
  predicate BraceGroupAt(s: string) {
    |s| >= 3 && s[0] == '{' && s[1] != '}' && '}' in s[2..]
  }

  /** First index at or after `k` and before `end` where a brace group starts, `end` when there is none. */
  function FirstBraceGroup(s: string, k: nat, end: nat): (r: nat)
    requires k <= end <= |s|
    ensures k <= r <= end
    decreases end - k
  {
    if k == end || BraceGroupAt(s[k..]) then k else FirstBraceGroup(s, k + 1, end)
  }

  /** Whether `s` may follow a section header: blanks, an optional comment, the end of the line. */
  predicate HeaderTail(s: string) {
    var r := s[BlankLength(s)..];
    if r != "" && (r[0] == '#' || r[0] == ';') then AtLineEnd(r[CommentBody(r)..]) else AtLineEnd(r)
  }

  function CommentBody(s: string): (n: nat)
    ensures n <= |s|
  {
    if s == "" || s[0] == '\r' || s[0] == '\n' then 0 else 1 + CommentBody(s[1..])
  }

  /** Largest index below `k`, at least 2, holding a `]` that `tail` may follow; 0 when there is none. */
  function LastClose(tail: string -> bool, s: string, k: nat): (r: nat)
    requires k <= |s|
    ensures r == 0 || (2 <= r < k && s[r] == ']')
  {
    if k <= 2 then 0
    else if s[k - 1] == ']' && tail(s[k..]) then k - 1
    else LastClose(tail, s, k - 1)
  }

  /** The bracket that ends a header. */
  function HeaderClose(s: string, k: nat): (r: nat)
    requires k <= |s|
    ensures r == 0 || (2 <= r < k && s[r] == ']')
  {
    LastClose(HeaderTail, s, k)
  }

  predicate IsWordTail(c: char) {
    IsWordChar(c) || c == '%'
  }

  function WordTailLength(s: string): (n: nat)
    ensures n <= |s|
    ensures forall i | 0 <= i < n :: IsWordTail(s[i])
  {
    if s == "" || !IsWordTail(s[0]) then 0 else 1 + WordTailLength(s[1..])
  }

  function NameLength(s: string): (n: nat)
    ensures n <= |s|
    ensures n < |s| ==> s[n] == '%' || s[n] == '}'
  {
    if s == "" || s[0] == '%' || s[0] == '}' then 0 else 1 + NameLength(s[1..])
  }

  /** Length of a placeholder whose prefix has length `p`: one or more name characters, then `}`. */
  function PlaceholderEnd(s: string, p: nat): (n: nat)
    requires p <= |s|
    ensures n == 0 || (p < n <= |s| && s[n - 1] == '}')
  {
    var n := NameLength(s[p..]);
    if n > 0 && p + n < |s| && s[p + n] == '}' then p + n + 1 else 0
  }

  /** First index at or after `k` where the two characters of `pat` are found; `|s|` when there is none. */
  function FirstPair(s: string, pat: string, k: nat): (r: nat)
    requires k <= |s|
    ensures k <= r <= |s|
    ensures r < |s| ==> pat <= s[r..]
    decreases |s| - k
  {
    if k == |s| || pat <= s[k..] then k else FirstPair(s, pat, k + 1)
  }

  /** Largest index below `k`, at least 2, where the two characters of `pat` are found; 0 when there is none. */
  function LastPair(s: string, pat: string, k: nat): (r: nat)
    requires k <= |s|
    ensures r == 0 || (2 <= r < k && pat <= s[r..])
  {
    if k <= 2 then 0 else if pat <= s[k - 1..] then k - 1 else LastPair(s, pat, k - 1)
  }

  function MatchLength(rule: Rule, s: string): (n: nat)
    ensures n <= |s|
  {
    match rule
    case HiddenRule =>
      var b := BlankLength(s);
      if HIDDEN_TEXT <= s[b..] then
        var r := s[b + |HIDDEN_TEXT|..];
        var t := BlankLength(r);
        if AtLineEnd(r[t..]) then b + |HIDDEN_TEXT| + t else 0
      else 0
    case CommentBeforeBraceRule =>
      if StartsComment(s) then
        var end := LineLength(s);
        var b := BlankLength(s);
        var k := if b + 1 <= end then FirstBraceGroup(s, b + 1, end) else end;
        if k < end then k else 0
      else 0
    case CommentRule => if StartsComment(s) then LineLength(s) else 0
    case WhitespaceRule => SpaceLength(s)
    case SectionRule =>
      if s != "" && s[0] == '[' then
        var k := HeaderClose(s, LineLength(s));
        if k > 0 then k + 1 else 0
      else 0
    case WordRule => if s != "" && IsWordChar(s[0]) then 1 + WordTailLength(s[1..]) else 0
    case AssignRule => if s != "" && (s[0] == ':' || s[0] == '=') then 1 else 0
    case PlaceholderRule =>
      if "{PIN_" <= s then PlaceholderEnd(s, 5)
      else if "{PARAM_" <= s then PlaceholderEnd(s, 7)
      else 0
    case BlockTemplateRule =>
      if "{%" <= s then
        var k := FirstPair(s, "%}", 2);
        if k < |s| then k + 2 else 0
      else 0
    case NoteTemplateRule =>
      if "{#" <= s then
        var k := LastPair(s, "#}", LineLength(s));
        if k > 0 then k + 2 else 0
      else 0
    case ExprTemplateRule =>
      if "{{" <= s then
        var k := LastPair(s, "}}", LineLength(s));
        if k > 0 then k + 2 else 0
      else 0
    case UnknownRule => if s != "" && !IsSpace(s[0]) then 1 else 0
  }

  /** The loop over the specification: the first rule that matches decides. */
  function FirstMatch(spec: seq<Rule>, s: string): (t: Option<Token>)
    ensures t.Some? ==> 0 < |t.value.text| && t.value.text <= s
  {
    if spec == [] then None
    else
      var n := MatchLength(spec[0], s);
      if n > 0 then Some(Token(RuleKind(spec[0]), s[..n])) else FirstMatch(spec[1..], s)
  }

  /** What the parser relies on about a token `t` taken from the front of `s`. */
  ghost predicate TokenShape(t: Token, s: string) {
    && 0 < |t.text| && t.text <= s
    && (t.kind == Section ==> |t.text| >= 2 && t.text[0] == '[' && t.text[|t.text| - 1] == ']')
    && (t.kind == Placeholder ==> |t.text| >= 2 && t.text[0] == '{' && t.text[|t.text| - 1] == '}')
    && (t.kind == Whitespace ==> AllSpace(t.text))
    && (t.kind == Whitespace ==> |t.text| == |s| || !IsSpace(s[|t.text|]))
    && (t.kind != Whitespace && t.kind != Comment && t.kind != HiddenOptionComment ==>
          !IsSpace(t.text[0]) && t.text[0] != '#')
    && (t.kind == Word ==> '\n' !in t.text)
    && (t.kind == AssignOp || t.kind == Unknown ==> |t.text| == 1)
  }

  lemma RuleShape(rule: Rule, s: string)
    requires MatchLength(rule, s) > 0
    requires RuleKind(rule) != Comment && rule != HiddenRule ==> MatchLength(CommentRule, s) == 0
    ensures TokenShape(Token(RuleKind(rule), s[..MatchLength(rule, s)]), s)
  {
    SpaceBefore(s);
  }

  /** Whitespace and single characters are matched last, so no text is left without a token: from the `k`-th
      rule on, when the earlier ones failed, some rule matches. */
  lemma {:induction false} LaterRuleMatches(s: string, k: nat)
    requires s != "" && k < |CONFIG_SPEC|
    requires forall i | 0 <= i < k :: MatchLength(CONFIG_SPEC[i], s) == 0
    ensures FirstMatch(CONFIG_SPEC[k..], s).Some?
    ensures TokenShape(FirstMatch(CONFIG_SPEC[k..], s).value, s)
    decreases |CONFIG_SPEC| - k
  {
    var rule := CONFIG_SPEC[k];
    FirstMatchFrom(rule, CONFIG_SPEC[k + 1..], s);
    assert CONFIG_SPEC[k..] == [rule] + CONFIG_SPEC[k + 1..];
    if MatchLength(rule, s) > 0 {
      CommentRuleFailed(s, k);
      RuleShape(rule, s);
    } else {
      LastRulesMatch(s, k);
      LaterRuleMatches(s, k + 1);
    }
  }

  lemma FirstMatchFrom(rule: Rule, rest: seq<Rule>, s: string)
    ensures FirstMatch([rule] + rest, s) ==
            if MatchLength(rule, s) > 0 then Some(Token(RuleKind(rule), s[..MatchLength(rule, s)]))
            else FirstMatch(rest, s)
  {
    assert ([rule] + rest)[1..] == rest;
  }

  lemma CommentRuleFailed(s: string, k: nat)
    requires k < |CONFIG_SPEC| && forall i | 0 <= i < k :: MatchLength(CONFIG_SPEC[i], s) == 0
    ensures RuleKind(CONFIG_SPEC[k]) != Comment && CONFIG_SPEC[k] != HiddenRule ==> MatchLength(CommentRule, s) == 0
  {
    assert CONFIG_SPEC[2] == CommentRule;
  }

  /** The last rule matches what whitespace does not. */
  lemma LastRulesMatch(s: string, k: nat)
    requires s != "" && k < |CONFIG_SPEC| && forall i | 0 <= i <= k :: MatchLength(CONFIG_SPEC[i], s) == 0
    ensures k + 1 < |CONFIG_SPEC|
  {
    assert CONFIG_SPEC[3] == WhitespaceRule && CONFIG_SPEC[11] == UnknownRule;
    assert MatchLength(WhitespaceRule, s) == 0 ==> !IsSpace(s[0]);
    assert MatchLength(UnknownRule, s) == 0 ==> IsSpace(s[0]);
  }

  /** The next token of a non-empty text. */
  function Lex(s: string): (t: Token)
    requires s != ""
    ensures TokenShape(t, s)
  {
    LaterRuleMatches(s, 0);
    FirstMatch(CONFIG_SPEC, s).value
  }

  lemma {:induction false} FirstMatchDrop(s: string, k: nat, n: nat)
    requires s != "" && k + n < |CONFIG_SPEC|
    requires forall i | k <= i < k + n :: MatchLength(CONFIG_SPEC[i], s) == 0
    ensures FirstMatch(CONFIG_SPEC[k..], s) == FirstMatch(CONFIG_SPEC[k + n..], s)
    decreases n
  {
    if n > 0 {
      assert MatchLength(CONFIG_SPEC[k], s) == 0;
      assert CONFIG_SPEC[k..][0] == CONFIG_SPEC[k] && CONFIG_SPEC[k..][1..] == CONFIG_SPEC[k + 1..];
      FirstMatchDrop(s, k + 1, n - 1);
    }
  }

  /** A text that starts with whitespace other than a blank starts with a whitespace token. */
  lemma LexSpace(s: string)
    requires s != "" && IsSpace(s[0]) && !IsBlank(s[0])
    ensures Lex(s) == Token(Whitespace, s[..SpaceLength(s)])
  {
    EarlyRulesFail(s);
    FirstMatchDrop(s, 0, 3);
    assert CONFIG_SPEC[0..] == CONFIG_SPEC;
    WhitespaceMatches(CONFIG_SPEC[3..], s);
  }

  lemma EarlyRulesFail(s: string)
    requires s != "" && IsSpace(s[0]) && !IsBlank(s[0])
    ensures MatchLength(CONFIG_SPEC[0], s) == 0 && MatchLength(CONFIG_SPEC[1], s) == 0
    ensures MatchLength(CONFIG_SPEC[2], s) == 0
  {
    assert BlankLength(s) == 0;
  }

  lemma WhitespaceMatches(spec: seq<Rule>, s: string)
    requires spec != [] && spec[0] == WhitespaceRule && s != "" && IsSpace(s[0])
    ensures FirstMatch(spec, s) == Some(Token(Whitespace, s[..SpaceLength(s)]))
  {
  }
}
