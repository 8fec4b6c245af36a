/** Tokens and runs of small texts: what examples are worked out with. */
module ConfigExamples {
  import opened Text
  import opened ConfigTokens
  import opened ConfigTree
  import opened ConfigGrammar
  import opened ConfigLossless
  import opened ConfigLocality
  import opened ConfigReread
  import opened ConfigRegions
  import opened ConfigFailures
  import opened ConfigMarkers
  import opened ConfigStability
  import V = ConfigValues

  /** A brace that opens neither a placeholder nor a template. */
  lemma LoneBrace(s: string)
    requires |s| >= 2 && s[0] == '{' && s[1] != '%' && s[1] != '#' && s[1] != '{'
    requires MatchLength(PlaceholderRule, s) == 0
    ensures Lex(s) == Token(Unknown, "{")
  {
    CommentRulesFail(s);
    LaterRuleMatches(s, 0);
    LaterRulesOfBrace(s);
    FirstMatchDrop(s, 0, 11);
    SpecFrom(11, s);
    assert CONFIG_SPEC[0..] == CONFIG_SPEC && CONFIG_SPEC[11] == UnknownRule;
    assert s[..1] == "{";
  }

  lemma LaterRulesOfBrace(s: string)
    requires |s| >= 2 && s[0] == '{' && s[1] != '%' && s[1] != '#' && s[1] != '{'
    requires MatchLength(PlaceholderRule, s) == 0
    ensures forall i | 3 <= i < 11 :: MatchLength(CONFIG_SPEC[i], s) == 0
  {
    assert SpaceLength(s) == 0;
    assert forall i | 3 <= i < 11 :: CONFIG_SPEC[i] in {WhitespaceRule, SectionRule, WordRule, AssignRule,
        PlaceholderRule, BlockTemplateRule, NoteTemplateRule, ExprTemplateRule};
  }

  lemma PlaceholderFirst(s: string, n: nat)
    requires s != "" && s[0] == '{' && MatchLength(PlaceholderRule, s) == n > 0
    ensures Lex(s) == Token(Placeholder, s[..n])
  {
    CommentRulesFail(s);
    assert SpaceLength(s) == 0;
    assert forall i | 3 <= i < 7 :: CONFIG_SPEC[i] in {WhitespaceRule, SectionRule, WordRule, AssignRule};
    FirstMatchDrop(s, 0, 7);
    SpecFrom(7, s);
    assert CONFIG_SPEC[0..] == CONFIG_SPEC && CONFIG_SPEC[7] == PlaceholderRule;
  }

  lemma EarlierRulesOfWord(s: string)
    requires s != "" && IsWordChar(s[0])
    ensures forall i | 0 <= i < 5 :: MatchLength(CONFIG_SPEC[i], s) == 0
  {
    CommentRulesFail(s);
    assert SpaceLength(s) == 0;
    assert forall i | 3 <= i < 5 :: CONFIG_SPEC[i] in {WhitespaceRule, SectionRule};
  }

  lemma WordFirst(s: string)
    requires s != "" && IsWordChar(s[0])
    ensures Lex(s) == Token(Word, s[..1 + WordTailLength(s[1..])])
  {
    EarlierRulesOfWord(s);
    FirstMatchDrop(s, 0, 5);
    SpecFrom(5, s);
    assert CONFIG_SPEC[0..] == CONFIG_SPEC && CONFIG_SPEC[5] == WordRule;
  }

  /** A line that cannot start afresh is skipped with the lines before it. */
  lemma SolidLine(u: string, line: string)
    requires EndsLine(u) && EndsLine(line) && LineLength(line) == |line| - 1
    requires line[0] != '[' && !IsWordChar(line[0])
    ensures Solid(u + line) <==> Solid(u)
  {
    NextLineStops(u, line);
    LinesUntilJoin(IsResyncLine, u[NextLine(u)..], line);
    assert line[..LineLength(line)] != "" ==> line[..LineLength(line)][0] == line[0];
    assert line[NextLine(line)..] == "";
  }

  /** The whole text is one region, at a construct that fails. */
  lemma OneRegion(x: string, marker: bool, inSection: bool)
    requires EndsLine(x) && Lex(x).kind != Section && Failure(x, inSection).Some? && Solid(x)
    ensures RunText(x, 0, marker, inSection) == Cleaned(x) + Tail(Failure(x, inSection).value, marker)
  {
    assert x + "" == x && x[..|x|] == x && x[|x|..] == "";
    RegionIs(x, "", false);
    RegionOf(x, 0, marker, inSection);
    RunTextIs(x, 0, marker, inSection);
    assert ItemStep(x, 0, marker, inSection).rest == "";
    Empties(Cleaned(x) + Tail(Failure(x, inSection).value, marker));
  }

  lemma EarlierRulesOfHeader(s: string)
    requires s != "" && s[0] == '['
    ensures forall i | 0 <= i < 4 :: MatchLength(CONFIG_SPEC[i], s) == 0
  {
    CommentRulesFail(s);
    assert SpaceLength(s) == 0;
  }

  lemma HeaderFirst(rest: string)
    ensures Lex("[s]\n" + rest) == Token(Section, "[s]") && After("[s]\n" + rest, Token(Section, "[s]")) == "\n" + rest
  {
    var s := "[s]\n" + rest;
    LineLengthOnly(s, 3);
    assert s[3..] == "\n" + rest && HeaderTail(s[3..]);
    assert HeaderClose(s, 3) == 2;
    EarlierRulesOfHeader(s);
    FirstMatchDrop(s, 0, 4);
    SpecFrom(4, s);
    assert CONFIG_SPEC[0..] == CONFIG_SPEC && CONFIG_SPEC[4] == SectionRule;
    assert s[..3] == "[s]";
  }

  /** A header and its line break are written as they are. */
  lemma HeaderLineRun(rest: string, marker: bool)
    requires rest == "" || !IsSpace(rest[0])
    ensures RunText("[s]\n" + rest, 0, marker, false) == "[s]\n" + RunText(rest, 0, marker, true)
  {
    HeaderFirst(rest);
    BreakRun(rest, marker);
    SectionRun("[s]\n" + rest, marker);
    HeaderBreak(RunText(rest, 0, marker, true));
  }

  lemma SectionRun(s: string, marker: bool)
    requires s != "" && Lex(s).kind == Section
    ensures RunText(s, 0, marker, false) == Lex(s).text + RunText(After(s, Lex(s)), 0, marker, true)
  {
  }

  lemma HeaderBreak(rest: string)
    ensures "[s]" + ("\n" + rest) == "[s]\n" + rest
  {
  }

  /** So is a line break before other text. */
  lemma BreakRun(rest: string, marker: bool)
    requires rest == "" || !IsSpace(rest[0])
    ensures RunText("\n" + rest, 0, marker, true) == "\n" + RunText(rest, 0, marker, true)
  {
    var s := "\n" + rest;
    assert s[1..] == rest && SpaceLength(rest) == 0 && SpaceLength(s) == 1;
    LexSpace(s);
    assert s[..1] == "\n";
    SimpleConstruct(s, true);
    KeptRun(s, marker, true);
  }

  /** A construct that can be read is written as it is. */
  lemma KeptRun(s: string, marker: bool, inSection: bool)
    requires s != "" && Lex(s).kind != Section && Failure(s, inSection).None?
    ensures var r := Construct(s, inSection);
            && RunText(s, 0, marker, inSection)
               == ItemText(r.value) + RunText(r.rest, 0, marker, StaysInside(s, inSection))
            && ItemText(r.value) + r.rest == s
  {
    RunTextIs(s, 0, marker, inSection);
    ConcatOne(ItemText, Construct(s, inSection).value);
    ConstructText(s, inSection);
  }

  lemma CommentKind(line: string)
    requires IsOneComment(line) && |line| > 2 && line[2] == '!'
    ensures Lex(line).kind == Comment
  {
    assert BlankLength(line) == 0;
    CommentToken(line);
    LexRule(line);
    assert line[0..] == line && HIDDEN_TEXT[2] == 'S';
  }

  /** A comment line is written as it is. */
  lemma CommentLineRun(line: string, marker: bool, inSection: bool)
    requires IsOneComment(line) && |line| > 2 && line[2] == '!'
    ensures RunText(line, 0, marker, inSection) == line
  {
    CommentKind(line);
    CommentConstruct(line, inSection);
    KeptRun(line, marker, inSection);
    var rest := ParseComment(line).rest;
    V.CommentEndsAtBreak([], Lex(line).text, After(line, Lex(line)));
    BreakEndRun(ItemText(Construct(line, inSection).value), rest, line, marker, StaysInside(line, inSection));
  }

  /** So is the break at its end. */
  lemma BreakEndRun(t: string, rest: string, line: string, marker: bool, inSection: bool)
    requires t + rest == line && LineLength(line) == |line| - 1 && V.AtBreak(rest)
    ensures RunText(rest, 0, marker, inSection) == rest
  {
    if rest != "" {
      OnlyBreak(t, rest, line);
      SimpleConstruct(rest, inSection);
      KeptRun(rest, marker, inSection);
      assert rest + "" == rest;
    }
  }

  lemma OnlyBreak(t: string, rest: string, line: string)
    requires t + rest == line && LineLength(line) == |line| - 1
    requires rest != "" && '\n' in Lex(rest).text
    ensures After(rest, Lex(rest)) == ""
  {
    var i :| 0 <= i < |Lex(rest).text| && Lex(rest).text[i] == '\n';
    LineLengthIs(line);
    assert line[|t| + i] == rest[i];
  }
}
