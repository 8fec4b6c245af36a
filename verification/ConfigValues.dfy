/** What parsing a value gives to read back: everything, exactly when the value has no comment and does not end
    early; and the layout of the lines a parsed value consists of. */
module ConfigValues {
  import opened Text
  import opened ConfigTokens
  import opened ConfigTree
  import opened ConfigGrammar
  import opened ConfigLookup
  import L = ConfigLossless

  /** No token of the value starts a comment, and none ends the value before its last character. */
  predicate Plain(st: ValueState, s: string)
    decreases |s|
  {
    s == "" ||
    (&& Lex(s).kind != Comment
     && var next := ValueStep(st, s, false);
        next.Some? && Plain(next.value.value, next.value.rest))
  }

  predicate PlainValue(value: string) {
    value != "" && Plain(EMPTY_VALUE, value)
  }

  lemma {:induction false} PlainReadsWhole(st: ValueState, s: string)
    requires Plain(st, s)
    ensures LinesValue(ValueLoop(st, s, false).value) == L.StateText(PieceValue, st) + s
    decreases |s|
  {
    if s == "" {
      L.FinishValueText(PieceValue, st);
    } else {
      var next := ValueStep(st, s, false).value;
      PlainReadsWhole(next.value, next.rest);
      PlainStepValue(st, s);
    }
  }

  lemma PlainStepValue(st: ValueState, s: string)
    requires s != "" && Lex(s).kind != Comment && ValueStep(st, s, false).Some?
    ensures var r := ValueStep(st, s, false).value;
            L.StateText(PieceValue, r.value) + r.rest == L.StateText(PieceValue, st) + s
  {
    L.ValueStepText(PieceValue, st, s, false);
  }

  lemma CommentHasInk(s: string)
    requires s != "" && Lex(s).kind == Comment
    ensures Ink(ParseComment(s).rest) < Ink(s)
  {
    var c := ParseComment(s);
    L.ParseCommentText(s);
    InkAppend(CommentPartsText(c.value), c.rest);
    CommentStart(s);
    CommentKept(s);
    NoInk(CommentPartsText(c.value));
  }

  /** A comment token holds a `#` or `;`. */
  lemma CommentStart(s: string)
    requires s != "" && Lex(s).kind == Comment
    ensures !AllSpace(Lex(s).text)
  {
    var t := Lex(s);
    LaterRuleMatches(s, 0);
    assert CONFIG_SPEC[0..] == CONFIG_SPEC;
    CommentRules(CONFIG_SPEC, s);
    var b := BlankLength(s);
    assert t.text[b] == s[b];
  }

  lemma CommentRules(spec: seq<Rule>, s: string)
    requires FirstMatch(spec, s).Some? && FirstMatch(spec, s).value.kind == Comment
    ensures StartsComment(s) && BlankLength(s) < |FirstMatch(spec, s).value.text|
  {
    BlankBefore(s);
    LineLengthIs(s);
  }

  lemma {:induction false} CommentLoopKeeps(parts: seq<CommentPart>, current: string, s: string)
    ensures Ink(CommentPartsText(CommentLoop(parts, current, s).value)) >= Ink(CommentPartsText(parts) + current)
    decreases |s|
  {
    L.CommentLoopText(parts, current, s);
    var r := CommentLoop(parts, current, s);
    CommentLoopProgress(parts, current, s);
    SuffixInk(CommentPartsText(r.value), r.rest, CommentPartsText(parts) + current, s);
  }

  /** Of two ways to cut a text, the one with the shorter rest has the longer front. */
  lemma SuffixInk(a: string, x: string, b: string, y: string)
    requires a + x == b + y && |x| <= |y|
    ensures Ink(a) >= Ink(b)
  {
    var d := a[|b|..];
    assert a == b + d by {
      assert (a + x)[..|b|] == (b + y)[..|b|];
      assert (b + y)[..|b|] == b;
      assert a[..|b|] == (a + x)[..|b|];
    }
    InkAppend(b, d);
  }

  lemma CommentKept(s: string)
    requires s != "" && Lex(s).kind == Comment
    ensures Ink(CommentPartsText(ParseComment(s).value)) >= Ink(Lex(s).text) > 0
  {
    CommentStart(s);
    NoInk(Lex(s).text);
    CommentLoopKeeps([], Lex(s).text, After(s, Lex(s)));
    assert CommentPartsText([]) + Lex(s).text == Lex(s).text;
  }

  /** A value read only in part has less ink than its text. */
  lemma {:induction false} NotPlainLosesInk(st: ValueState, s: string)
    requires s != "" ==> !IsSpace(s[|s| - 1])
    ensures Ink(LinesValue(ValueLoop(st, s, false).value)) <= Ink(L.StateText(PieceValue, st)) + Ink(s)
    ensures !Plain(st, s) ==>
              Ink(LinesValue(ValueLoop(st, s, false).value)) < Ink(L.StateText(PieceValue, st)) + Ink(s)
    decreases |s|
  {
    if s == "" || ValueStep(st, s, false).None? {
      L.FinishValueText(PieceValue, st);
      NoInk(s);
    } else {
      var next := ValueStep(st, s, false).value;
      StepInk(st, s);
      StepSuffix(st, s);
      NotPlainLosesInk(next.value, next.rest);
    }
  }

  lemma StepInk(st: ValueState, s: string)
    requires s != "" && ValueStep(st, s, false).Some?
    ensures var r := ValueStep(st, s, false).value;
            var before := Ink(L.StateText(PieceValue, st)) + Ink(s);
            var after := Ink(L.StateText(PieceValue, r.value)) + Ink(r.rest);
            if Lex(s).kind == Comment then after < before else after == before
  {
    var next := ValueStep(st, s, false).value;
    if Lex(s).kind == Comment {
      CommentStepInk(st, s);
    } else {
      PlainStepValue(st, s);
      SameInk(L.StateText(PieceValue, next.value), next.rest, L.StateText(PieceValue, st), s);
    }
  }

  lemma SameInk(a: string, x: string, b: string, y: string)
    requires a + x == b + y
    ensures Ink(a) + Ink(x) == Ink(b) + Ink(y)
  {
    InkAppend(a, x);
    InkAppend(b, y);
  }

  lemma CommentStepInk(st: ValueState, s: string)
    requires s != "" && Lex(s).kind == Comment && ValueStep(st, s, false).Some?
    ensures var r := ValueStep(st, s, false).value;
            Ink(L.StateText(PieceValue, r.value)) + Ink(r.rest) < Ink(L.StateText(PieceValue, st)) + Ink(s)
  {
    CommentHasInk(s);
    CommentStepText(st, s);
  }

  lemma CommentStepText(st: ValueState, s: string)
    requires s != "" && Lex(s).kind == Comment && ValueStep(st, s, false).Some?
    ensures var r := ValueStep(st, s, false).value;
            L.StateText(PieceValue, r.value) == L.StateText(PieceValue, st) && r.rest == ParseComment(s).rest
  {
    L.AddPieceText(PieceValue, st, Remark(ParseComment(s).value));
    L.Empties(L.StateText(PieceValue, st));
  }

  lemma StepSuffix(st: ValueState, s: string)
    requires s != "" && ValueStep(st, s, false).Some?
    ensures var rest := ValueStep(st, s, false).value.rest; |rest| < |s| && rest == s[|s| - |rest|..]
  {
    if Lex(s).kind == Comment {
      CommentSuffix(s);
    }
  }

  lemma CommentSuffix(s: string)
    requires s != ""
    ensures var rest := ParseComment(s).rest; |rest| < |s| && rest == s[|s| - |rest|..]
  {
    L.ParseCommentText(s);
    CommentProgress(s);
    var c := ParseComment(s);
    assert (CommentPartsText(c.value) + c.rest)[|CommentPartsText(c.value)|..] == c.rest;
  }

  /** Parsing a stripped value gives it back exactly when it is plain. */
  lemma ParsedReadsBack(value: string)
    requires Stripped(value)
    ensures var lines := ParseValue(value, false).value;
            (lines != [] && Strip(LinesValue(lines)) == value) <==> PlainValue(value)
  {
    var lines := ParseValue(value, false).value;
    assert L.StateText(PieceValue, EMPTY_VALUE) == "";
    if value == "" {
    } else if PlainValue(value) {
      PlainReadsWhole(EMPTY_VALUE, value);
      assert "" + value == value;
      StripPadded("", value, "");
      assert "" + value + "" == value;
      assert lines != [] by { assert LinesValue([]) == ""; }
    } else {
      NotPlainLosesInk(EMPTY_VALUE, value);
      StripInk(LinesValue(lines));
    }
  }

  // -------------------------------------------------------------------------- the layout of a parsed value

  ghost predicate SpacesBlank(line: Line) {
    forall i | 0 <= i < |line| :: line[i].Space? ==> AllSpace(line[i].text)
  }

  /** At most one piece holds text. */
  ghost predicate OneInk(line: Line) {
    forall i, j | 0 <= i < |line| && 0 <= j < |line| && IsInk(line[i]) && IsInk(line[j]) :: i == j
  }

  /** Text, if there is any, comes first. */
  ghost predicate InkFirst(line: Line) {
    forall i | 0 < i < |line| :: !IsInk(line[i])
  }

  /** A value line: without a placeholder it holds at most one text, and only the first line may hold layout
      before it. */
  ghost predicate GoodLine(line: Line, first: bool) {
    line != [] && SpacesBlank(line) && (SlotFree(line) ==> OneInk(line) && (first || InkFirst(line)))
  }

  ghost predicate GoodLines(lines: seq<Line>) {
    forall i | 0 <= i < |lines| :: GoodLine(lines[i], i == 0)
  }

  /** The end of the text or a whitespace token with a line break. */
  ghost predicate AtBreak(s: string) {
    s == "" || (Lex(s).kind == Whitespace && '\n' in Lex(s).text)
  }

  /** The line being built: fresh, or the layout a value starts with, or closed by a comment. */
  ghost predicate OpenLine(st: ValueState) {
    st.line == [] || (st.lines == [] && |st.line| == 1 && st.line[0].Space?)
  }

  ghost predicate ClosedLine(st: ValueState) {
    AllSpace(st.entry) && OneInk(st.line) && (st.lines == [] || InkFirst(st.line))
  }

  ghost predicate GoodState(st: ValueState, s: string) {
    && GoodLines(st.lines) && SpacesBlank(st.line)
    && (SlotFree(st.line) ==> OpenLine(st) || (ClosedLine(st) && AtBreak(s)))
  }

  lemma {:induction false} CommentEndsAtBreak(parts: seq<CommentPart>, current: string, s: string)
    ensures AtBreak(CommentLoop(parts, current, s).rest)
    decreases |s|
  {
    if s != "" {
      var t := Lex(s);
      if t.kind == Placeholder {
        CommentEndsAtBreak(FlushComment(parts, current) + [CommentPlaceholder(Inner(t.text))], "", After(s, t));
      } else if !(t.kind == Whitespace && '\n' in t.text) {
        CommentEndsAtBreak(parts, current + t.text, After(s, t));
      }
    }
  }

  /** What is left of a whitespace token after the taken part starts with the line break. */
  lemma TakenSpaceBreaks(s: string)
    requires s != "" && Lex(s).kind == Whitespace && '\n' in Lex(s).text
    ensures var text := TakenSpace(Lex(s).text); '\n' in text || AtBreak(s[|text|..])
  {
    var text := Lex(s).text;
    var n := BreakIndex(text);
    BreakFound(text);
    if 0 < n < |text| {
      var r := s[n..];
      assert r[0] == text[n] && text[n..] <= r;
      LexSpace(r);
      assert text[n..][0] == text[n];
      if r[0] != '\n' {
        assert text[n..][1] == '\n' == text[n + 1] && r[1] == '\n';
        assert SpaceLength(r) >= 2;
        assert Lex(r).text[1] == '\n';
      } else {
        assert Lex(r).text[0] == '\n';
      }
    }
  }

  lemma {:induction false} BreakFound(text: string)
    requires '\n' in text
    ensures BreakIndex(text) < |text|
    ensures var r := text[BreakIndex(text)..]; r[0] == '\n' || "\r\n" <= r
  {
    if !(text[0] == '\n' || "\r\n" <= text) {
      BreakFound(text[1..]);
      assert text[1..][BreakIndex(text[1..])..] == text[BreakIndex(text)..];
    }
  }

  /** Closing the complete lines of the entry keeps a good state good. */
  lemma {:induction false} SplitEntryGood(st: ValueState)
    requires GoodLines(st.lines) && SpacesBlank(st.line)
    requires SlotFree(st.line) ==> OpenLine(st) || ClosedLine(st)
    ensures var r := SplitEntry(st);
            && GoodLines(r.lines) && SpacesBlank(r.line)
            && (if '\n' in st.entry then r.line == [] else r == st)
    decreases |st.entry|
  {
    var n := LineLength(st.entry);
    LineLengthIs(st.entry);
    if n < |st.entry| {
      var line := st.line + [Entry(st.entry[..n + 1])];
      AddEntryGood(st.line, st.entry[..n + 1], st.lines == [], OpenLine(st));
      PushGood(st.lines, line);
      var next := ValueState(st.lines + [line], [], st.entry[n + 1..], st.balance);
      assert next.line == [] && GoodLines(next.lines) && SpacesBlank(next.line);
      SplitEntryGood(next);
      assert SplitEntry(st) == SplitEntry(next);
      assert SplitEntry(next).line == [];
    }
  }

  lemma PushGood(lines: seq<Line>, line: Line)
    requires GoodLines(lines) && GoodLine(line, lines == [])
    ensures GoodLines(lines + [line])
  {
  }

  /** Ending a line with an entry: any text on a fresh line, only layout on one a comment has closed. */
  lemma AddEntryGood(line: Line, text: string, first: bool, open: bool)
    requires SpacesBlank(line)
    requires SlotFree(line) && open ==> line == [] || (first && |line| == 1 && line[0].Space?)
    requires SlotFree(line) && !open ==> AllSpace(text) && OneInk(line) && (first || InkFirst(line))
    ensures GoodLine(line + [Entry(text)], first)
  {
    var r := line + [Entry(text)];
    assert forall i | 0 <= i < |line| :: r[i] == line[i];
    assert SlotFree(r) ==> SlotFree(line);
    if SlotFree(r) && !open {
      assert !IsInk(r[|line|]);
    }
  }

  lemma AddSpaceGood(st: ValueState, s: string, asIs: bool)
    requires s != "" && Lex(s).kind == Whitespace && GoodState(st, s)
    ensures var text := TakenSpace(Lex(s).text); GoodState(AddSpace(st, text), s[|text|..])
  {
    var text := TakenSpace(Lex(s).text);
    assert AllSpace(text);
    if st.lines == [] && st.line == [] && st.entry == "" {
      SplitEntryGood(st.(line := [Space(text)]));
    } else {
      var next := st.(entry := st.entry + text, balance := ScanBalance(st.balance, text));
      SplitEntryGood(next);
      if SlotFree(st.line) && !OpenLine(st) {
        TakenSpaceBreaks(s);
      }
    }
  }

  lemma FlushEntryGood(st: ValueState)
    requires SpacesBlank(st.line) && (SlotFree(st.line) ==> OpenLine(st) || ClosedLine(st))
    ensures var line := FlushEntry(st.line, st.entry);
            SpacesBlank(line) && (line != [] ==> GoodLine(line, st.lines == []))
  {
    if st.entry != "" {
      AddEntryGood(st.line, st.entry, st.lines == [], OpenLine(st));
    }
  }

  lemma AddRemarkGood(st: ValueState, parts: seq<CommentPart>, rest: string)
    requires GoodLines(st.lines) && SpacesBlank(st.line) && (SlotFree(st.line) ==> OpenLine(st))
    requires AtBreak(rest)
    ensures GoodState(AddPiece(st, Remark(parts)), rest)
  {
    FlushEntryGood(st);
    var line := FlushEntry(st.line, st.entry);
    var r := line + [Remark(parts)];
    assert forall i | 0 <= i < |line| :: r[i] == line[i];
    if SlotFree(r) {
      assert SlotFree(line) && SlotFree(st.line) by {
        assert forall i | 0 <= i < |st.line| :: line[i] == st.line[i];
      }
    }
  }

  lemma ValueStepGood(st: ValueState, s: string, asIs: bool)
    requires s != "" && GoodState(st, s) && ValueStep(st, s, asIs).Some?
    ensures var r := ValueStep(st, s, asIs).value; GoodState(r.value, r.rest)
  {
    var t := Lex(s);
    var next := ValueStep(st, s, asIs).value;
    if t.kind == Whitespace {
      AddSpaceGood(st, s, asIs);
    } else if !asIs && t.kind == Comment {
      CommentEndsAtBreak([], t.text, After(s, t));
      AddRemarkGood(st, ParseComment(s).value, next.rest);
    } else if !asIs && t.kind == Placeholder {
      FlushEntryGood(st);
      var line := FlushEntry(st.line, st.entry);
      assert (line + [Slot(Inner(t.text))])[|line|].Slot?;
    }
  }

  lemma {:induction false} ValueLoopGood(st: ValueState, s: string, asIs: bool)
    requires GoodState(st, s)
    ensures GoodLines(ValueLoop(st, s, asIs).value)
    decreases |s|
  {
    if s == "" || ValueStep(st, s, asIs).None? {
      FlushEntryGood(st);
      var line := FlushEntry(st.line, st.entry);
      if line != [] {
        PushGood(st.lines, line);
      }
    } else {
      ValueStepGood(st, s, asIs);
      var next := ValueStep(st, s, asIs).value;
      ValueLoopGood(next.value, next.rest, asIs);
    }
  }

  /** The lines of a parsed value are well laid out. */
  lemma ParsedValueGood(s: string, asIs: bool)
    ensures GoodLines(ParseValue(s, asIs).value)
  {
    ValueLoopGood(EMPTY_VALUE, s, asIs);
  }
}
