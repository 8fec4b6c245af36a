/** Two texts with an old marker that are not read again as they were: the marker held the character that kept a
    placeholder from being closed, or it stood between a name and an assignment. */
module ConfigOldMarkers {
  import opened Text
  import opened ConfigTokens
  import opened ConfigTree
  import opened ConfigGrammar
  import opened ConfigLossless
  import opened ConfigLocality
  import opened ConfigReread
  import opened ConfigRegions
  import opened ConfigFailures
  import opened ConfigMarkers
  import opened ConfigStability
  import opened ConfigExamples
  import Q = ConfigReparse

  const OPEN := "{PIN_a\n"
  const OLD := PARSE_ERROR_MARKER + "%\n"
  const CLOSE := "}foo\n"
  const CLOSED := "{PIN_a\n}"
  const FOO := "foo\n"

  const BRACE := Token(Unknown, "{")
  const NAME := Token(Word, "foo")

  lemma Shapes()
    ensures LineLength(OPEN) == |OPEN| - 1 && LineLength(CLOSE) == |CLOSE| - 1 && LineLength(FOO) == |FOO| - 1
    ensures EndsLine(OPEN) && EndsLine(CLOSE) && EndsLine(FOO)
    ensures OPEN + CLOSE == CLOSED + FOO
  {
    LineLengthOnly(OPEN, |OPEN| - 1);
    LineLengthOnly(CLOSE, |CLOSE| - 1);
    LineLengthOnly(FOO, |FOO| - 1);
  }

  lemma OldLine()
    ensures EndsLine(OLD) && LineLength(OLD) == |OLD| - 1 && OLD[0] == '#' && IsMarkerLine(OLD[..|OLD| - 1])
  {
    MarkerParts();
    var text := PARSE_ERROR_MARKER + "%";
    InAppend(PARSE_ERROR_MARKER, "%", '\n');
    MarkerLineShape(text);
    assert OLD == text + "\n";
  }

  /** Where the placeholder that `OPEN` starts ends. */
  lemma OpenEnds(name: string, q: string)
    requires NoStopNorBreak(name)
    ensures var s := OPEN + name + q;
            MatchLength(PlaceholderRule, s) == if FirstStop(q) == "}" then |OPEN + name| + NameLength(q) + 1 else 0
  {
    var s, v := OPEN + name + q, "a\n" + name;
    assert OPEN == "{PIN_" + "a\n";
    assert s[5..] == v + q;
    assert "{PIN_" <= s by {
      assert s[..5] == "{PIN_";
    }
    NoStop(name);
    NoStop("a\n");
    NameJoin("a\n", name);
    EndPastText(s, 5, v, q);
  }

  /** The first parse: one region, from which the old marker is dropped. */
  lemma FirstParse()
    ensures RunText(OPEN + OLD + CLOSE, 0, true, false) == OPEN + CLOSE + MarkerLine(UnexpectedToken(BRACE))
  {
    var buf := OPEN + OLD + CLOSE;
    FirstFailure();
    Shapes();
    OldLine();
    Whole(OPEN, OLD);
    Whole(OPEN + OLD, CLOSE);
    SolidLine(OPEN, OLD);
    SolidLine(OPEN + OLD, CLOSE);
    assert OPEN[NextLine(OPEN)..] == "";
    FirstCleaned();
    OneRegion(buf, true, false);
  }

  lemma FirstFailure()
    ensures Lex(OPEN + OLD + CLOSE) == BRACE
    ensures Failure(OPEN + OLD + CLOSE, false) == Some(UnexpectedToken(BRACE))
  {
    MarkerParts();
    var q := "%\n" + CLOSE;
    assert NameLength(q) == 0 && q[0] == '%';
    OpenEnds(PARSE_ERROR_MARKER, q);
    assert OPEN + PARSE_ERROR_MARKER + q == OPEN + OLD + CLOSE;
    LoneBrace(OPEN + OLD + CLOSE);
    TokenFails(OPEN + OLD + CLOSE, false);
  }

  lemma FirstCleaned()
    ensures Cleaned(OPEN + OLD + CLOSE) == OPEN + CLOSE
  {
    Shapes();
    OldLine();
    NotMarker(OPEN[..|OPEN| - 1]);
    NotMarker(CLOSE[..|CLOSE| - 1]);
    CleanedBetween(OPEN, OLD, CLOSE);
  }

  lemma TwoLines(x: string, y: string)
    requires EndsLine(x) && EndsLine(y)
    ensures Terminated([x[..|x| - 1], y[..|y| - 1]]) == x + y
  {
    var a, b := x[..|x| - 1], y[..|y| - 1];
    assert [a, b][1..] == [b] && [b][1..] == [];
    assert Terminated([b]) == b + "\n" + "" == y;
    assert a + "\n" == x;
  }

  /** The second parse: the brace closes a placeholder, and what fails is the word behind it. */
  lemma SecondParse()
    ensures RunText(OPEN + CLOSE + MarkerLine(UnexpectedToken(BRACE)), 0, true, false)
            == OPEN + CLOSE + MarkerLine(UnexpectedToken(NAME))
  {
    var line := MarkerLine(UnexpectedToken(BRACE));
    Shapes();
    Associate(CLOSED, FOO, line);
    Associate(CLOSED, FOO, MarkerLine(UnexpectedToken(NAME)));
    SecondToken(line);
    PlaceholderRun(CLOSED, FOO + line);
    WordRun(line);
  }

  lemma SecondToken(line: string)
    ensures Lex(OPEN + CLOSE + line) == Token(Placeholder, CLOSED)
  {
    var q := CLOSE + line;
    assert NameLength(q) == 0 && q[0] == '}';
    assert OPEN + "" + q == OPEN + CLOSE + line;
    OpenEnds("", q);
    assert (OPEN + CLOSE + line)[..|CLOSED|] == CLOSED;
    PlaceholderFirst(OPEN + CLOSE + line, |CLOSED|);
  }

  lemma PlaceholderRun(text: string, rest: string)
    requires text != "" && Lex(text + rest) == Token(Placeholder, text)
    ensures RunText(text + rest, 0, true, false) == text + RunText(rest, 0, true, false)
  {
    var s := text + rest;
    SplitAt(text, rest);
    SimpleConstruct(s, false);
    ConcatOne(ItemText, PlaceholderItem(Inner(text)));
    BracesText(text);
    RunTextIs(s, 0, true, false);
  }

  lemma WordRun(line: string)
    requires line == MarkerLine(UnexpectedToken(BRACE))
    ensures RunText(FOO + line, 0, true, false) == FOO + MarkerLine(UnexpectedToken(NAME))
  {
    MarkerUnobtrusive(UnexpectedToken(BRACE), BRACE, "{");
    WordFailure(line);
    WordRegion(line);
    OneRegion(FOO + line, true, false);
  }

  lemma WordFailure(line: string)
    ensures Lex(FOO + line) == NAME && Failure(FOO + line, false) == Some(UnexpectedToken(NAME))
  {
    var x := FOO + line;
    assert x[1..] == "oo\n" + line;
    LineEndStops("oo\n");
    WordStops("oo\n", line);
    WordOfOo();
    assert x[..3] == "foo";
    WordFirst(x);
    TokenFails(x, false);
  }

  lemma WordOfOo()
    ensures WordTailLength("oo\n") == 2
  {
    assert "oo\n"[1..] == "o\n" && "o\n"[1..] == "\n";
  }

  lemma WordRegion(line: string)
    requires Unobtrusive(line, "{")
    ensures EndsLine(FOO + line) && Solid(FOO + line) && Cleaned(FOO + line) == FOO
  {
    Shapes();
    Whole(FOO, line);
    SolidLine(FOO, line);
    assert FOO[NextLine(FOO)..] == "";
    CleanedMarker(FOO, line);
    CleanedIs(FOO);
    OneBodyLine(FOO);
    NotMarker(FOO[..|FOO| - 1]);
    OneLine(FOO[..|FOO| - 1]);
    TerminatedBody(FOO);
  }

  lemma ReasonsDiffer(u: string)
    ensures u + MarkerLine(UnexpectedToken(BRACE)) != u + MarkerLine(UnexpectedToken(NAME))
  {
    assert |UnexpectedToken(BRACE)| == |UNEXPECTED| + |KindName(Unknown)| + 4;
    assert |UnexpectedToken(NAME)| == |UNEXPECTED| + |KindName(Word)| + 6;
    assert |KindName(Unknown)| == 7 && |KindName(Word)| == 4;
  }

  /** Written again, the text has another marker. */
  lemma OldMarkerMatters(o: Option<string>)
    ensures var buf := OPEN + OLD + CLOSE;
            var marked := Write(Parse(buf, true, o));
            && marked == OPEN + CLOSE + MarkerLine(UnexpectedToken(BRACE))
            && Write(Parse(marked, true, o)) == OPEN + CLOSE + MarkerLine(UnexpectedToken(NAME))
            && Write(Parse(marked, true, o)) != marked
  {
    FirstParse();
    SecondParse();
    ParseText(OPEN + OLD + CLOSE, true, o);
    ParseText(OPEN + CLOSE + MarkerLine(UnexpectedToken(BRACE)), true, o);
    ReasonsDiffer(OPEN + CLOSE);
  }

  const BAD := "bad\n"
  const BARE := PARSE_ERROR_MARKER + "\n"
  const FIVE := "= 5\n"

  const HEADER := "[s]\n"
  const NO_ASSIGN := "Expected ':' or '=' after '" + "bad" + "'"

  /** The marker stands between a name and an assignment. It is dropped, the two are one option when the text is read
      again, and the new marker stays for good with nothing to mark. */
  lemma OldMarkerKeepsApart(o: Option<string>)
    ensures var buf := HEADER + (BAD + BARE + FIVE);
            var marked := Write(Parse(buf, true, o));
            && marked == HEADER + (BAD + FIVE + MarkerLine(NO_ASSIGN))
            && Write(Parse(marked, true, o)) == marked && Write(Parse(marked, false, o)) == marked
            && !ReadsLike(marked, buf, o)
  {
    var body := BAD + BARE + FIVE;
    var again := BAD + FIVE + MarkerLine(NO_ASSIGN);
    ApartOnce(true);
    ApartOnce(false);
    ApartTwice(true);
    ApartTwice(false);
    ParseText(HEADER + body, true, o);
    ParseText(HEADER + body, false, o);
    ParseText(HEADER + again, true, o);
    ParseText(HEADER + again, false, o);
    MarkerAdds(HEADER, BAD + FIVE, MarkerLine(NO_ASSIGN));
  }

  lemma MarkerAdds(a: string, b: string, line: string)
    requires line != ""
    ensures a + (b + line) != a + b
  {
    assert |a + (b + line)| == |a + b| + |line|;
  }

  /** The first parse: the header, its line break, and the name that fails. */
  lemma ApartOnce(marker: bool)
    ensures RunText(HEADER + (BAD + BARE + FIVE), 0, marker, false)
            == HEADER + (BAD + FIVE + Tail(NO_ASSIGN, marker))
  {
    BareRegion();
    BareFailure();
    HeaderLineRun(BAD + BARE + FIVE, marker);
    OneRegion(BAD + BARE + FIVE, marker, true);
  }

  /** The second parse: the header, its line break, and an option with a comment behind it. */
  lemma ApartTwice(marker: bool)
    ensures RunText(HEADER + (BAD + FIVE + MarkerLine(NO_ASSIGN)), 0, marker, false)
            == HEADER + (BAD + FIVE + MarkerLine(NO_ASSIGN))
  {
    var line := MarkerLine(NO_ASSIGN);
    ApartMarker();
    Associate(BAD, FIVE, line);
    assert BAD + (FIVE + line) == BAD + FIVE + line;
    HeaderLineRun(BAD + FIVE + line, marker);
    OptionRun(line, marker);
  }

  lemma ApartMarker()
    ensures IsOneComment(MarkerLine(NO_ASSIGN)) && |MarkerLine(NO_ASSIGN)| > 2 && MarkerLine(NO_ASSIGN)[2] == '!'
  {
    ApartReason();
    MarkerUnobtrusive(NO_ASSIGN, Token(Word, "bad"), "bad");
    MarkerStart(NO_ASSIGN);
  }

  lemma ApartReason()
    ensures IsReason(NO_ASSIGN, Token(Word, "bad"))
  {
  }

  lemma MarkerStart(reason: string)
    ensures |MarkerLine(reason)| > 2 && MarkerLine(reason)[2] == '!'
  {
    StartKept(PARSE_ERROR_MARKER, ": " + reason + MARKER_END + "\n", MarkerLine(reason));
  }

  lemma StartKept(a: string, x: string, all: string)
    requires |a| > 2 && all == a + x
    ensures |all| > 2 && all[2] == a[2]
  {
  }

  /** An option, its line break and a comment line are written as they are. */
  lemma OptionRun(line: string, marker: bool)
    requires IsOneComment(line) && |line| > 2 && line[2] == '!'
    ensures RunText(BAD + FIVE + line, 0, marker, true) == BAD + FIVE + line
  {
    var x := BAD + FIVE + line;
    FiveOption(line);
    KeptRun(x, marker, true);
    BreakRun(line, marker);
    CommentLineRun(line, marker, true);
  }

  lemma BareRegion()
    ensures EndsLine(BAD + BARE + FIVE) && Solid(BAD + BARE + FIVE) && Cleaned(BAD + BARE + FIVE) == BAD + FIVE
  {
    BareLines();
    Whole(BAD, BARE);
    Whole(BAD + BARE, FIVE);
    SolidLine(BAD, BARE);
    SolidLine(BAD + BARE, FIVE);
    assert BAD[NextLine(BAD)..] == "";
    BareCleaned();
  }

  lemma BareFailure()
    ensures Lex(BAD + BARE + FIVE).kind == Word && Failure(BAD + BARE + FIVE, true) == Some(NO_ASSIGN)
  {
    BadWord(BARE + FIVE);
    assert BAD + (BARE + FIVE) == BAD + BARE + FIVE;
    assert "\n"[1..] == "";
    AssignsNextAhead("\n", BARE + FIVE);
    WordFails(BAD + BARE + FIVE);
  }

  lemma BareLines()
    ensures EndsLine(BAD) && EndsLine(BARE) && EndsLine(FIVE) && IsMarkerLine(BARE[..|BARE| - 1])
    ensures LineLength(BAD) == |BAD| - 1 && LineLength(BARE) == |BARE| - 1 && LineLength(FIVE) == |FIVE| - 1
  {
    MarkerParts();
    MarkerLineShape(PARSE_ERROR_MARKER);
    LineLengthOnly(BAD, |BAD| - 1);
    LineLengthOnly(FIVE, |FIVE| - 1);
  }

  lemma BareCleaned()
    ensures Cleaned(BAD + BARE + FIVE) == BAD + FIVE
  {
    BareLines();
    NotMarker(BAD[..|BAD| - 1]);
    NotMarker(FIVE[..|FIVE| - 1]);
    CleanedBetween(BAD, BARE, FIVE);
  }

  /** Three lines, the middle one a marker. */
  lemma CleanedBetween(x: string, line: string, y: string)
    requires EndsLine(x) && LineLength(x) == |x| - 1 && EndsLine(y) && LineLength(y) == |y| - 1
    requires EndsLine(line) && LineLength(line) == |line| - 1 && IsMarkerLine(line[..|line| - 1])
    requires !IsMarkerLine(x[..|x| - 1]) && !IsMarkerLine(y[..|y| - 1])
    ensures Cleaned(x + line + y) == x + y
  {
    Whole(x, line);
    Whole(x + line, y);
    CleanedIs(x + line + y);
    BodyLinesAppend(x + line, y);
    BodyLinesAppend(x, line);
    OneBodyLine(x);
    OneBodyLine(line);
    OneBodyLine(y);
    DropMiddle(x[..|x| - 1], line[..|line| - 1], y[..|y| - 1]);
    TwoLines(x, y);
  }

  lemma DropMiddle(a: string, m: string, b: string)
    requires !IsMarkerLine(a) && IsMarkerLine(m) && !IsMarkerLine(b)
    ensures DropMarkerLines([a] + [m] + [b]) == [a, b]
  {
    DropLinesAppend([a] + [m], [b]);
    DropLinesAppend([a], [m]);
    OneLine(a);
    OneLine(m);
    OneLine(b);
  }

  lemma WordOfAd()
    ensures WordTailLength("ad\n") == 2
  {
    assert "ad\n"[1..] == "d\n" && "d\n"[1..] == "\n";
  }

  lemma BadWord(rest: string)
    ensures Lex(BAD + rest) == Token(Word, "bad") && After(BAD + rest, Lex(BAD + rest)) == "\n" + rest
  {
    var x := BAD + rest;
    assert x[1..] == "ad\n" + rest;
    WordOfAd();
    WordStops("ad\n", rest);
    assert x[..3] == "bad" && x[3..] == "\n" + rest;
    WordFirst(x);
  }

  /** The option `bad` with the value 5, read up to its line break. */
  lemma FiveOption(line: string)
    requires IsOneComment(line)
    ensures var x := BAD + FIVE + line;
            Lex(x).kind == Word && Failure(x, true).None? && Construct(x, true).rest == "\n" + line
  {
    Associate(BAD, FIVE, line);
    FiveText(line);
    BadWord(FIVE + line);
    NameAssigned(FIVE + line);
    FiveValue(line);
  }

  lemma FiveText(line: string)
    ensures (FIVE + line)[0] == '=' && (FIVE + line)[1..] == " 5\n" + line
  {
  }

  lemma FiveValue(line: string)
    requires IsOneComment(line)
    ensures ParseValue(" 5\n" + line, false).rest == "\n" + line
  {
    FiveEnds(line);
    BlankLead();
    FiveInline();
    Q.ValueReadsBack(" ", "", "5", "\n" + line);
    assert " " + "5" + "" + ("\n" + line) == " 5\n" + line;
  }

  lemma BreakBefore(line: string)
    requires line != "" && !IsSpace(line[0])
    ensures Lex("\n" + line) == Token(Whitespace, "\n") && After("\n" + line, Token(Whitespace, "\n")) == line
  {
    var tail := "\n" + line;
    assert SpaceLength(line) == 0 && tail[1..] == line;
    assert SpaceLength(tail) == 1;
    LexSpace(tail);
    assert tail[..1] == "\n";
  }

  lemma CommentStops(line: string)
    requires IsOneComment(line)
    ensures !ContinuationFollows(line) && line != "" && !IsSpace(line[0])
  {
    Empties(line);
    CommentContinues(line, "");
    assert !ContinuationFollows("");
  }

  lemma FiveEnds(line: string)
    requires IsOneComment(line)
    ensures Q.Ends("\n" + line)
  {
    CommentStops(line);
    BreakBefore(line);
    Q.EndsIs("\n" + line);
  }

  lemma BlankLead()
    ensures Q.Lead(" ")
  {
    assert BreakIndex(" ") == 1 by {
      assert " "[1..] == "";
    }
  }

  lemma FiveInline()
    ensures Q.Inline("5")
  {
    Q.OneCharacter('5');
  }

  /** A name on a line and an assignment at the start of the next one. */
  lemma NameAssigned(rest: string)
    requires rest != "" && rest[0] == '='
    ensures Failure(BAD + rest, true).None?
    ensures Construct(BAD + rest, true).rest == ParseValue(rest[1..], false).rest
  {
    BadWord(rest);
    var r := "\n" + rest;
    assert r[1..] == rest && SpaceLength(rest) == 0 && SpaceLength(r) == 1;
    LexSpace(r);
    AssignFirst(rest);
    assert TrailingSpace(r) == "\n";
    LexRule(rest);
    OptionIs(BAD + rest);
    OptionConstruct(BAD + rest);
  }
}
