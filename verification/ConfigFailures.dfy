/** A construct that cannot be read fails again, and for the same reason, when a marker comes or goes behind it. */
module ConfigFailures {
  import opened Text
  import opened ConfigTokens
  import opened ConfigTree
  import opened ConfigGrammar
  import opened ConfigLossless
  import opened ConfigLocality
  import opened ConfigReread
  import opened ConfigRegions

  // ------------------------------------------------------------------------------- an assignment after a name

  /** Some rule of the token's kind matched its text. */
  lemma {:induction false} RuleMatched(k: nat, s: string)
    requires k < |CONFIG_SPEC| && FirstMatch(CONFIG_SPEC[k..], s).Some?
    ensures var t := FirstMatch(CONFIG_SPEC[k..], s).value;
            exists rule :: RuleKind(rule) == t.kind && MatchLength(rule, s) > 0 && t.text == s[..MatchLength(rule, s)]
    decreases |CONFIG_SPEC| - k
  {
    SpecFrom(k, s);
    if MatchLength(CONFIG_SPEC[k], s) == 0 {
      RuleMatched(k + 1, s);
    }
  }

  lemma LexRule(s: string)
    requires s != ""
    ensures exists rule ::
              RuleKind(rule) == Lex(s).kind && MatchLength(rule, s) > 0 && Lex(s).text == s[..MatchLength(rule, s)]
  {
    LaterRuleMatches(s, 0);
    assert CONFIG_SPEC[0..] == CONFIG_SPEC;
    RuleMatched(0, s);
  }

  lemma AssignFirst(s: string)
    requires s != ""
    ensures Lex(s).kind == AssignOp <==> s[0] == ':' || s[0] == '='
  {
    if s[0] == ':' || s[0] == '=' {
      AssignIsFirst(s);
    } else {
      LexRule(s);
    }
  }

  lemma AssignIsFirst(s: string)
    requires s != "" && (s[0] == ':' || s[0] == '=')
    ensures Lex(s).kind == AssignOp
  {
    EarlierRulesFail(s);
    FirstMatchDrop(s, 0, 6);
    assert CONFIG_SPEC[0..] == CONFIG_SPEC;
    SpecFrom(6, s);
  }

  lemma EarlierRulesFail(s: string)
    requires s != "" && (s[0] == ':' || s[0] == '=')
    ensures forall i | 0 <= i < 6 :: MatchLength(CONFIG_SPEC[i], s) == 0
    ensures CONFIG_SPEC[6] == AssignRule
  {
    assert BlankLength(s) == 0 && SpaceLength(s) == 0;
    assert forall i | 0 <= i < 6 ::
        CONFIG_SPEC[i] in {HiddenRule, CommentBeforeBraceRule, CommentRule, WhitespaceRule, SectionRule, WordRule};
  }

  lemma {:induction false} SpaceLengthOnly(s: string, n: nat)
    requires n <= |s| && AllSpace(s[..n]) && (n == |s| || !IsSpace(s[n]))
    ensures SpaceLength(s) == n
  {
    if n > 0 {
      assert s[..n][0] == s[0] && s[1..][..n - 1] == s[..n][1..];
      SpaceLengthOnly(s[1..], n - 1);
    }
  }

  /** Whitespace that no comment starts with is one token. */
  lemma SpaceToken(s: string)
    requires s != "" && IsSpace(s[0]) && !StartsComment(s)
    ensures Lex(s) == Token(Whitespace, s[..SpaceLength(s)])
  {
    CommentRulesFail(s);
    FirstMatchDrop(s, 0, 3);
    assert CONFIG_SPEC[0..] == CONFIG_SPEC;
    WhitespaceMatches(CONFIG_SPEC[3..], s);
  }

  lemma HiddenIsComment(s: string)
    requires MatchLength(HiddenRule, s) > 0
    ensures StartsComment(s)
  {
    assert s[BlankLength(s)..][0] == HIDDEN_TEXT[0];
  }

  lemma CommentRulesFail(s: string)
    requires !StartsComment(s)
    ensures forall i | 0 <= i < 3 :: MatchLength(CONFIG_SPEC[i], s) == 0
    ensures CONFIG_SPEC[3] == WhitespaceRule
  {
    if MatchLength(HiddenRule, s) > 0 {
      HiddenIsComment(s);
    }
    assert forall i | 0 <= i < 3 :: CONFIG_SPEC[i] in {HiddenRule, CommentBeforeBraceRule, CommentRule};
  }

  /** Whether an assignment follows, after whitespace that is not the start of a comment. */
  predicate AssignsNext(s: string) {
    var n := SpaceLength(s);
    !StartsComment(s) && n < |s| && (s[n] == ':' || s[n] == '=')
  }

  lemma AssignsNextIs(s: string)
    ensures StartsAssign(s[|TrailingSpace(s)|..]) <==> AssignsNext(s)
  {
    if s != "" {
      var t := Lex(s);
      if t.kind == Whitespace {
        WhitespaceIs(s);
        if |t.text| < |s| {
          AssignFirst(After(s, t));
        }
      } else {
        AssignFirst(s);
        assert s[0..] == s;
        if !StartsComment(s) && IsSpace(s[0]) {
          SpaceToken(s);
        }
      }
    }
  }

  lemma WhitespaceIs(s: string)
    requires s != "" && Lex(s).kind == Whitespace
    ensures !StartsComment(s) && |Lex(s).text| == SpaceLength(s)
  {
    SpaceLengthOnly(s, |Lex(s).text|);
    if StartsComment(s) {
      CommentToken(s);
    }
  }

  lemma CommentToken(s: string)
    requires StartsComment(s)
    ensures s != "" && (Lex(s).kind == Comment || Lex(s).kind == HiddenOptionComment)
  {
    assert CONFIG_SPEC[0..] == CONFIG_SPEC;
    LaterRuleMatches(s, 0);
    SpecFrom(0, s);
    SpecFrom(1, s);
    SpecFrom(2, s);
    LineLengthIs(s);
    BlankBefore(s);
    assert CONFIG_SPEC[0] == HiddenRule && CONFIG_SPEC[1] == CommentBeforeBraceRule && CONFIG_SPEC[2] == CommentRule;
  }

  /** Neither whitespace nor an assignment comes first. */
  predicate NoAssign(s: string) {
    s == "" || (!IsSpace(s[0]) && s[0] != ':' && s[0] != '=')
  }

  /** What follows whole lines is seen by this test only through its first character. */
  lemma AssignsNextSwap(w: string, q: string, q2: string)
    requires EndsLine(w)
    requires NoAssign(q) && NoAssign(q2)
    ensures AssignsNext(w + q) <==> AssignsNext(w + q2)
  {
    AssignsNextAhead(w, q);
    AssignsNextAhead(w, q2);
  }

  lemma AssignsNextAhead(w: string, q: string)
    requires EndsLine(w) && NoAssign(q)
    ensures AssignsNext(w + q) <==> AssignsNext(w)
  {
    StartsCommentLocal(w, q);
    if SpaceLength(w) < |w| {
      SpaceStops(w, q);
    } else {
      SpaceBefore(w);
      assert (w + q)[..|w|] == w == w[..|w|];
      SpaceLengthOnly(w + q, |w|);
    }
  }

  // --------------------------------------------------------------------------------- the reason and its marker

  /** The reasons a recovery can write down for a construct that starts with `t`. */
  ghost predicate IsReason(reason: string, t: Token) {
    || reason == UnexpectedToken(t)
    || reason == "Expected ':' or '=' after '" + t.text + "'"
  }

  ghost predicate CanFail(t: Token) {
    t.kind == Word || t.kind == AssignOp || t.kind == Unknown
  }

  /** `EndsLine` rules out an option name at the very end of the text. */
  lemma FailureShape(s: string, inSection: bool)
    requires EndsLine(s) && Lex(s).kind != Section && Failure(s, inSection).Some?
    ensures CanFail(Lex(s)) && IsReason(Failure(s, inSection).value, Lex(s))
    ensures inSection && Lex(s).kind == Word ==> !AssignsNext(After(s, Lex(s)))
    ensures '\n' !in Lex(s).text && |Lex(s).text| < |s|
  {
    var t := Lex(s);
    assert s + "" == s;
    PrefixShort(t.text, s, "");
    if inSection && t.kind == Word {
      AssignsNextIs(After(s, t));
    }
  }

  lemma WordFails(s: string)
    requires s != "" && Lex(s).kind == Word && After(s, Lex(s)) != "" && !AssignsNext(After(s, Lex(s)))
    ensures Failure(s, true) == Some("Expected ':' or '=' after '" + Lex(s).text + "'")
  {
    AssignsNextIs(After(s, Lex(s)));
  }

  lemma TokenFails(s: string, inSection: bool)
    requires s != "" && CanFail(Lex(s)) && (Lex(s).kind == Word ==> !inSection)
    ensures Failure(s, inSection) == Some(UnexpectedToken(Lex(s)))
  {
  }

  lemma AfterNameSwap(name: string, c: Cut)
    requires EndsLine(c.u) && NoAssign(c.q) && NoAssign(c.q2)
    requires name <= c.u + c.q && '\n' !in name
    ensures |name| < |c.u|
    ensures AssignsNext((c.u + c.q)[|name|..]) <==> AssignsNext((c.u + c.q2)[|name|..])
  {
    PrefixShort(name, c.u, c.q);
    DropAppend(c.u, c.q, |name|);
    DropAppend(c.u, c.q2, |name|);
    AssignsNextSwap(c.u[|name|..], c.q, c.q2);
  }

  /** The same failure whether `q` or `q2` follows the lines `u`. */
  lemma FailureSwap(c: Cut, inSection: bool)
    requires Sound(c)
    requires NoAssign(c.q) && NoAssign(c.q2)
    requires EndsLine(c.u + c.q) && Lex(c.u + c.q).kind != Section && Failure(c.u + c.q, inSection).Some?
    ensures Lex(c.u + c.q2) == Lex(c.u + c.q)
    ensures Failure(c.u + c.q2, inSection) == Failure(c.u + c.q, inSection)
  {
    assert Old("", c) == c.u + c.q && New("", c) == c.u + c.q2;
    FailureShape(c.u + c.q, inSection);
    LexSwap("", c);
    FailsAgain(c, Lex(c.u + c.q), inSection);
  }

  lemma FailsAgain(c: Cut, t: Token, inSection: bool)
    requires EndsLine(c.u) && NoAssign(c.q) && NoAssign(c.q2)
    requires Lex(c.u + c.q) == t == Lex(c.u + c.q2) && CanFail(t) && '\n' !in t.text
    requires inSection && t.kind == Word ==> !AssignsNext((c.u + c.q)[|t.text|..])
    ensures Failure(c.u + c.q2, inSection) == Failure(c.u + c.q, inSection)
  {
    if inSection && t.kind == Word {
      AfterNameSwap(t.text, c);
      WordFails(c.u + c.q);
      WordFails(c.u + c.q2);
    } else {
      TokenFails(c.u + c.q, inSection);
      TokenFails(c.u + c.q2, inSection);
    }
  }

  // -------------------------------------------------------------------------------------- what a marker shows

  function MarkerLine(reason: string): string {
    MarkerText(reason) + "\n"
  }

  /** The constant parts of a marker hold nothing that a token looks for. */
  lemma MarkerParts()
    ensures NoStopNorBreak(PARSE_ERROR_MARKER) && NoStopNorBreak(": ")
  {
  }


  lemma EndStart()
    ensures NoStopNorBreak(" - line(s) above left ")
  {
  }

  lemma EndEnd()
    ensures NoStopNorBreak("untouched, please fix")
  {
  }

  lemma UnexpectedStart()
    ensures NoStopNorBreak("Expected a [section], ")
  {
  }

  lemma UnexpectedEnd()
    ensures NoStopNorBreak("an option or a comment, got '")
  {
  }

  lemma LongParts()
    ensures NoStopNorBreak(MARKER_END) && NoStopNorBreak(UNEXPECTED)
  {
    EndStart();
    EndEnd();
    PlainAppend(" - line(s) above left ", "untouched, please fix");
    UnexpectedStart();
    UnexpectedEnd();
    PlainAppend("Expected a [section], ", "an option or a comment, got '");
  }

  lemma KindParts(kind: Kind)
    ensures NoStopNorBreak(KindName(kind))
  {
  }

  lemma ExpectedParts()
    ensures NoStopNorBreak("Expected ':' or '=' after '") && NoStopNorBreak("'")
  {
  }

  lemma PlainAppend(x: string, y: string)
    requires NoStopNorBreak(x) && NoStopNorBreak(y)
    ensures NoStopNorBreak(x + y)
  {
  }

  /** A marker line shows a token between two plain texts. */
  lemma MarkerAround(reason: string, t: Token) returns (pre: string, post: string)
    requires IsReason(reason, t)
    ensures MarkerText(reason) == pre + t.text + post && NoStopNorBreak(pre) && NoStopNorBreak(post)
  {
    MarkerParts();
    LongParts();
    var head := PARSE_ERROR_MARKER + ": ";
    PlainAppend(PARSE_ERROR_MARKER, ": ");
    var before, after := ReasonAround(reason, t);
    PlainAppend(head, before);
    PlainAppend(after, MARKER_END);
    pre, post := head + before, after + MARKER_END;
  }

  lemma ReasonAround(reason: string, t: Token) returns (pre: string, post: string)
    requires IsReason(reason, t)
    ensures reason == pre + t.text + post && NoStopNorBreak(pre) && NoStopNorBreak(post)
  {
    ExpectedParts();
    post := "'";
    if reason == UnexpectedToken(t) {
      LongParts();
      KindParts(t.kind);
      MarkerParts();
      PlainAppend(UNEXPECTED, KindName(t.kind));
      PlainAppend(UNEXPECTED + KindName(t.kind), ": ");
      pre := UNEXPECTED + KindName(t.kind) + ": ";
    } else {
      pre := "Expected ':' or '=' after '";
    }
  }

  lemma InAround(pre: string, x: string, post: string, ch: char)
    requires ch !in pre && ch !in post
    ensures ch in pre + x + post <==> ch in x
  {
    InAppend(pre + x, post, ch);
    InAppend(pre, x, ch);
  }

  /** A failing token holds no line break, and a brace only if it is one. */
  lemma FailingText(s: string)
    requires s != "" && CanFail(Lex(s))
    ensures '\n' !in Lex(s).text && ('}' in Lex(s).text ==> Lex(s).text == "}")
  {
    if Lex(s).kind == Word {
      LexRule(s);
      assert forall i | 0 < i < |Lex(s).text| :: Lex(s).text[i] == s[1..][i - 1];
    }
  }

  /** What of a marker line the tokens before it can see. */
  ghost predicate Unobtrusive(line: string, u: string)
    requires u != ""
  {
    && EndsLine(line) && line[0] == '#' && LineLength(line) == |line| - 1 && IsMarkerLine(line[..|line| - 1])
    && NoPair(line) && ('}' in line ==> u[0] == '}') && (NameLength(u) == |u| ==> NameLength(line) == |line|)
  }

  lemma {:induction false} StopHere(s: string, i: nat)
    requires i < |s| && (s[i] == '%' || s[i] == '}')
    ensures NameLength(s) < |s|
  {
    if i > 0 {
      StopHere(s[1..], i - 1);
    }
  }

  lemma MarkerUnobtrusive(reason: string, t: Token, u: string)
    requires IsReason(reason, t) && u != "" && t.text != "" && t.text <= u
    requires '\n' !in t.text && ('}' in t.text ==> t.text == "}")
    ensures Unobtrusive(MarkerLine(reason), u)
  {
    var pre, post := MarkerAround(reason, t);
    var text := MarkerText(reason);
    InAround(pre, t.text, post, '\n');
    InAround(pre, t.text, post, '%');
    InAround(pre, t.text, post, '}');
    MarkerLineShape(text);
    LineBreakAdded(text);
    NoPairWithout(MarkerLine(reason));
    if NameLength(u) == |u| {
      NoStopInPrefix(u, t.text);
      NoStop(MarkerLine(reason));
    }
  }

  lemma LineBreakAdded(text: string)
    ensures '%' in text + "\n" <==> '%' in text
    ensures '}' in text + "\n" <==> '}' in text
  {
    InAppend(text, "\n", '%');
    InAppend(text, "\n", '}');
  }

  lemma NoStopInPrefix(u: string, t: string)
    requires NameLength(u) == |u| && t <= u
    ensures '%' !in t && '}' !in t
  {
    if '%' in t || '}' in t {
      var i :| 0 <= i < |t| && (t[i] == '%' || t[i] == '}');
      StopHere(u, i);
    }
  }

  lemma NoPairWithout(line: string)
    requires '%' !in line || '}' !in line
    ensures NoPair(line)
  {
  }

  lemma MarkerLineShape(text: string)
    requires '\n' !in text && PARSE_ERROR_MARKER <= text
    ensures var line := text + "\n";
            EndsLine(line) && line[0] == '#' && LineLength(line) == |line| - 1 && line[..|line| - 1] == text
            && IsMarkerLine(text)
  {
    LineLengthOnly(text + "\n", |text|);
    assert text[0] == PARSE_ERROR_MARKER[0];
    assert SpaceLength(text) == 0;
  }
}
