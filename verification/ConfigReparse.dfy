/** A value that was set, written and parsed again: it reads back, unless it was written behind a comment. */
module ConfigReparse {
  import opened Text
  import opened ConfigTokens
  import opened ConfigTree
  import opened ConfigGrammar
  import opened ConfigLookup
  import opened ConfigValues
  import opened ConfigEdit
  import opened ConfigFailures
  import L = ConfigLossless
  import Y = ConfigLocality
  import N = ConfigValueEnd

  // ------------------------------------------------------------------------------- where a new value is put

  predicate HasRemark(line: Line) {
    exists k | 0 <= k < |line| :: line[k].Remark?
  }

  /** The line and the piece of the rewritten lines that hold the new value. */
  function Landing(lines: seq<Line>): (nat, nat)
    requires lines != []
  {
    match FindTarget(lines)
    case Some(at) => at
    case None => (0, if lines[0] != [] && lines[0][0].Remark? then 0 else |lines[0]|)
  }

  /** A comment, and not the first piece of its line when there is no value yet, comes before the new value. */
  predicate BehindComment(lines: seq<Line>)
    requires lines != []
  {
    match FindTarget(lines)
    case Some((i, j)) => HasRemark(lines[i][..j])
    case None => lines[0] != [] && !lines[0][0].Remark? && HasRemark(lines[0])
  }

  /** The new value is written behind a comment on its line exactly when that can be seen in the old lines. */
  lemma LandsBehindComment(lines: seq<Line>, value: string)
    requires lines != []
    ensures var (i, j) := Landing(lines);
            var r := Rewrite(lines, value);
            && i < |r| && j < |r[i]| && r[i][j].Entry? && EndsWith(r[i][j].text, value)
            && (HasRemark(r[i][..j]) <==> BehindComment(lines))
  {
    var (i, j) := Landing(lines);
    var r := Rewrite(lines, value);
    match FindTarget(lines)
    case Some(_) =>
      assert r[i] == lines[i][j := Entry(Indent(lines[i][j].text) + value)];
      assert r[i][..j] == lines[i][..j];
      EndOf(Indent(lines[i][j].text), value);
    case None =>
      assert r[0] == Headed(lines[0], value);
      if j == 0 {
        assert r[0][..0] == [];
      } else {
        assert r[0][..j] == lines[0];
      }
      EndOf("", value);
      assert "" + value == value;
  }

  lemma EndOf(a: string, b: string)
    ensures EndsWith(a + b, b)
  {
  }

  // ---------------------------------------------------------------- parsed values hold nothing behind comments

  /** No value text comes after a comment on its line. */
  ghost predicate RemarksLast(line: Line) {
    forall k, m | 0 <= k < m < |line| && line[k].Remark? :: !IsInk(line[m])
  }

  ghost predicate AllRemarksLast(lines: seq<Line>) {
    forall i | 0 <= i < |lines| :: RemarksLast(lines[i])
  }

  /** A line with a comment waits for its line break. */
  ghost predicate Waits(st: ValueState) {
    AllRemarksLast(st.lines) && RemarksLast(st.line) && (HasRemark(st.line) ==> AllSpace(st.entry))
  }

  lemma PushEntryLast(line: Line, text: string)
    requires RemarksLast(line) && (HasRemark(line) ==> AllSpace(text))
    ensures RemarksLast(line + [Entry(text)])
  {
    var r := line + [Entry(text)];
    assert forall m | 0 <= m < |line| :: r[m] == line[m];
  }

  lemma {:induction false} SplitWaits(st: ValueState)
    requires Waits(st)
    ensures Waits(SplitEntry(st))
    ensures if '\n' in st.entry then SplitEntry(st).line == [] else SplitEntry(st) == st
    decreases |st.entry|
  {
    var n := LineLength(st.entry);
    LineLengthIs(st.entry);
    if n < |st.entry| {
      var line := st.line + [Entry(st.entry[..n + 1])];
      PushEntryLast(st.line, st.entry[..n + 1]);
      var next := ValueState(st.lines + [line], [], st.entry[n + 1..], st.balance);
      SplitWaits(next);
    }
  }

  lemma FlushWaits(st: ValueState)
    requires Waits(st)
    ensures RemarksLast(FlushEntry(st.line, st.entry))
  {
    if st.entry != "" {
      PushEntryLast(st.line, st.entry);
    }
  }

  lemma AddPieceWaits(st: ValueState, piece: Piece)
    requires Waits(st) && !HasRemark(st.line) && !piece.Entry?
    ensures Waits(AddPiece(st, piece))
  {
    var line := FlushEntry(st.line, st.entry);
    var r := line + [piece];
    assert forall m | 0 <= m < |line| :: r[m] == line[m];
    assert !HasRemark(line);
  }

  lemma AddSpaceWaits(st: ValueState, s: string)
    requires s != "" && Lex(s).kind == Whitespace && Waits(st) && (HasRemark(st.line) ==> AtBreak(s))
    ensures var text := TakenSpace(Lex(s).text);
            Waits(AddSpace(st, text)) && (HasRemark(AddSpace(st, text).line) ==> AtBreak(s[|text|..]))
  {
    var text := TakenSpace(Lex(s).text);
    assert AllSpace(text);
    if st.lines == [] && st.line == [] && st.entry == "" {
      SplitWaits(st.(line := [Space(text)]));
    } else {
      SplitWaits(st.(entry := st.entry + text, balance := ScanBalance(st.balance, text)));
      if HasRemark(st.line) {
        TakenSpaceBreaks(s);
      }
    }
  }

  lemma ValueStepWaits(st: ValueState, s: string, asIs: bool)
    requires s != "" && ValueStep(st, s, asIs).Some? && Waits(st) && (HasRemark(st.line) ==> AtBreak(s))
    ensures var r := ValueStep(st, s, asIs).value;
            Waits(r.value) && (HasRemark(r.value.line) ==> AtBreak(r.rest))
  {
    var t := Lex(s);
    if t.kind == Whitespace {
      AddSpaceWaits(st, s);
    } else if !asIs && t.kind == Comment {
      CommentEndsAtBreak([], t.text, After(s, t));
      AddPieceWaits(st, Remark(ParseComment(s).value));
    } else if !asIs && t.kind == Placeholder {
      AddPieceWaits(st, Slot(Inner(t.text)));
      SlotIsNoRemark(FlushEntry(st.line, st.entry), Inner(t.text), st);
    }
  }

  lemma SlotIsNoRemark(line: Line, name: string, st: ValueState)
    requires line == FlushEntry(st.line, st.entry) && !HasRemark(st.line)
    ensures !HasRemark(line + [Slot(name)])
  {
    assert forall m | 0 <= m < |st.line| :: line[m] == st.line[m];
  }

  lemma {:induction false} ValueLoopLast(st: ValueState, s: string, asIs: bool)
    requires Waits(st) && (HasRemark(st.line) ==> AtBreak(s))
    ensures AllRemarksLast(ValueLoop(st, s, asIs).value)
    decreases |s|
  {
    if s == "" || ValueStep(st, s, asIs).None? {
      FlushWaits(st);
    } else {
      ValueStepWaits(st, s, asIs);
      var next := ValueStep(st, s, asIs).value;
      ValueLoopLast(next.value, next.rest, asIs);
    }
  }

  /** In a parsed value only an option without value text can get its new value behind a comment. */
  lemma ParsedLandsBehindComment(s: string, asIs: bool)
    requires ParseValue(s, asIs).value != []
    ensures var lines := ParseValue(s, asIs).value;
            BehindComment(lines) <==>
              FindTarget(lines).None? && lines[0] != [] && !lines[0][0].Remark? && HasRemark(lines[0])
  {
    var lines := ParseValue(s, asIs).value;
    ValueLoopLast(EMPTY_VALUE, s, asIs);
    if FindTarget(lines).Some? {
      var (i, j) := FindTarget(lines).value;
      assert RemarksLast(lines[i]) && IsInk(lines[i][j]);
      assert forall k | 0 <= k < j :: lines[i][..j][k] == lines[i][k];
    }
  }

  // --------------------------------------------------------------------------------- reading one line of text

  /** Opens neither a comment, a header nor a placeholder, and stays on its line. */
  predicate IsInlineChar(c: char) {
    c != '\n' && c != '#' && c != ';' && c != '[' && c != '{'
  }

  /** A stripped value on one line, its brackets and quotes closed. */
  ghost predicate Inline(value: string) {
    && value != "" && Stripped(value) && (forall i | 0 <= i < |value| :: IsInlineChar(value[i]))
    && !N.Inside(value)
  }

  lemma OneCharacter(c: char)
    requires !IsSpace(c) && IsInlineChar(c) && ScanChar(BALANCED, c) == BALANCED
    ensures Inline([c])
  {
    assert [c][1..] == "";
    assert ScanBalance(BALANCED, [c]) == ScanBalance(BALANCED, "");
    N.ClosedIsOutside([c]);
  }

  /** What may come right after a value: no character a word could go on with. */
  predicate Apart(s: string) {
    s == "" || !IsWordTail(s[0])
  }

  /** The token at a character that starts nothing longer than a word. */
  lemma PlainToken(s: string)
    requires s != "" && !IsSpace(s[0]) && IsInlineChar(s[0])
    ensures var t := Lex(s);
            t.kind == Word || t.kind == AssignOp || t.kind == Unknown
    ensures Lex(s).kind == Word ==> |Lex(s).text| == 1 + WordTailLength(s[1..])
  {
    LexRule(s);
    assert BlankLength(s) == 0 && SpaceLength(s) == 0;
    if MatchLength(HiddenRule, s) > 0 {
      HiddenIsComment(s);
    }
  }

  lemma {:induction false} WordWithin(v: string, post: string)
    requires Apart(post)
    ensures WordTailLength(v + post) <= |v|
  {
    if v == "" {
      assert v + post == post;
    } else {
      WordWithin(v[1..], post);
      assert (v + post)[1..] == v[1..] + post;
    }
  }

  /** The rest of a one-line value: no new token kinds inside and whitespace only between other characters. */
  predicate InlineRest(v: string) {
    && (v != "" ==> !IsSpace(v[|v| - 1])) && forall i | 0 <= i < |v| :: IsInlineChar(v[i])
  }

  /** The state once `text` is added to the entry. */
  function Entered(st: ValueState, text: string): ValueState {
    st.(entry := st.entry + text, balance := ScanBalance(st.balance, text))
  }

  lemma NoBreakEntry(st: ValueState)
    requires '\n' !in st.entry
    ensures SplitEntry(st) == st
  {
    LineLengthOnly(st.entry, |st.entry|);
  }

  lemma InlineToken(v: string, post: string)
    requires v != "" && InlineRest(v) && Apart(post) && !IsSpace(v[0])
    ensures var t := Lex(v + post);
            |t.text| <= |v| && t.text == v[..|t.text|] && (t.kind == Word || t.kind == AssignOp || t.kind == Unknown)
  {
    PlainToken(v + post);
    WordWithin(v[1..], post);
    assert (v + post)[1..] == v[1..] + post;
    Y.TakeAppend(v, post, |Lex(v + post).text|);
  }

  lemma InlineSpace(v: string, post: string)
    requires v != "" && InlineRest(v) && IsSpace(v[0])
    ensures var t := Lex(v + post);
            t.kind == Whitespace && |t.text| <= |v| && t.text == v[..|t.text|] && '\n' !in t.text
            && TakenSpace(t.text) == t.text
  {
    SpaceUpToLast(v);
    Y.SpaceStops(v, post);
    NoCommentInside(v, post);
    SpaceToken(v + post);
    var n := SpaceLength(v);
    Y.TakeAppend(v, post, n);
    assert forall i | 0 <= i < n :: v[..n][i] == v[i];
    NoBreakFound(v[..n]);
  }

  lemma {:induction false} SpaceUpToLast(v: string)
    requires v != "" && !IsSpace(v[|v| - 1])
    ensures SpaceLength(v) < |v|
  {
    if IsSpace(v[0]) {
      SpaceUpToLast(v[1..]);
    }
  }

  lemma NoCommentInside(v: string, post: string)
    requires v != "" && InlineRest(v)
    ensures !StartsComment(v + post)
  {
    BlankUpToLast(v);
    Y.BlankStops(v, post);
    assert (v + post)[BlankLength(v)] == v[BlankLength(v)];
  }

  lemma {:induction false} BlankUpToLast(v: string)
    requires v != "" && !IsSpace(v[|v| - 1])
    ensures BlankLength(v) < |v|
  {
    if IsBlank(v[0]) {
      BlankUpToLast(v[1..]);
    }
  }

  lemma {:induction false} NoBreakFound(text: string)
    requires '\n' !in text
    ensures BreakIndex(text) == |text|
  {
    if text != "" {
      NoBreakFound(text[1..]);
    }
  }

  /** A one-line value is added to the entry, token by token. */
  lemma {:induction false} InlineRead(st: ValueState, v: string, post: string)
    requires InlineRest(v) && Apart(post) && '\n' !in st.entry
    requires v != "" && IsSpace(v[0]) ==> st.entry != ""
    ensures ValueLoop(st, v + post, false) == ValueLoop(Entered(st, v), post, false)
    decreases |v|
  {
    if v == "" {
      assert v + post == post && st.entry + v == st.entry;
    } else {
      InlineStep(st, v, post);
      var n := |Lex(v + post).text|;
      InlineRead(Entered(st, v[..n]), v[n..], post);
      EnteredTwice(st, v, n);
    }
  }

  lemma EnteredTwice(st: ValueState, v: string, n: nat)
    requires n <= |v|
    ensures Entered(Entered(st, v[..n]), v[n..]) == Entered(st, v)
  {
    assert v == v[..n] + v[n..];
    ScanAppend(st.balance, v[..n], v[n..]);
    Associate(st.entry, v[..n], v[n..]);
  }

  lemma InlineStep(st: ValueState, v: string, post: string)
    requires v != "" && InlineRest(v) && Apart(post) && '\n' !in st.entry && (IsSpace(v[0]) ==> st.entry != "")
    ensures var n := |Lex(v + post).text|;
            && 0 < n <= |v| && '\n' !in Entered(st, v[..n]).entry && Entered(st, v[..n]).entry != ""
            && InlineRest(v[n..])
            && ValueStep(st, v + post, false) == Some(Parsed(Entered(st, v[..n]), v[n..] + post))
  {
    var n := |Lex(v + post).text|;
    if IsSpace(v[0]) {
      InlineSpace(v, post);
    } else {
      InlineToken(v, post);
    }
    Y.DropAppend(v, post, n);
    InlineParts(v, n);
    InlineAdds(st, v + post);
  }

  lemma InlineParts(v: string, n: nat)
    requires InlineRest(v) && n <= |v|
    ensures InlineRest(v[n..]) && '\n' !in v[..n]
  {
    assert forall i | 0 <= i < |v[n..]| :: v[n..][i] == v[n + i];
    assert forall i | 0 <= i < n :: v[..n][i] == v[i];
  }

  lemma InlineAdds(st: ValueState, s: string)
    requires s != "" && '\n' !in Lex(s).text && '\n' !in st.entry
    requires var t := Lex(s);
             t.kind == Word || t.kind == AssignOp || t.kind == Unknown
             || (t.kind == Whitespace && TakenSpace(t.text) == t.text && st.entry != "")
    ensures ValueStep(st, s, false) == Some(Parsed(Entered(st, Lex(s).text), After(s, Lex(s))))
    ensures '\n' !in Entered(st, Lex(s).text).entry
  {
    NoBreakEntry(Entered(st, Lex(s).text));
  }

  // ------------------------------------------------------------------------------- what stands around a value

  /** Outside brackets and quotations the value ends here. */
  predicate Ends(tail: string) {
    tail == "" ||
    var t := Lex(tail);
    && t.kind == Whitespace && t.text[0] == '\n' && t.text[|t.text| - 1] == '\n'
    && !(t.text == "\n" && N.GoesOnIndented(After(tail, t)))
  }

  /** The same in the parser's terms. */
  lemma EndsIs(tail: string)
    requires tail != ""
    ensures var t := Lex(tail);
            Ends(tail) <==> t.kind == Whitespace && "\n" <= t.text && t.text[|t.text| - 1] == '\n'
                            && !ContinuesAfterComments(t.text, After(tail, t))
  {
    var t := Lex(tail);
    if t.kind == Whitespace && t.text[0] == '\n' && t.text[|t.text| - 1] == '\n' {
      N.ContinuesIs(t.text, After(tail, t));
    }
  }

  lemma ValueEnds(st: ValueState, tail: string)
    requires Ends(tail) && Closed(st.balance)
    ensures ValueLoop(st, tail, false) == Parsed(FinishValue(st), tail)
    ensures tail != "" ==> tail[0] == '\n'
  {
    if tail != "" {
      EndsIs(tail);
    }
  }

  /** Layout before a value, as one piece. */
  predicate Lead(x: string) {
    x == "" || (AllSpace(x) && TakenSpace(x) == x && x[|x| - 1] != '\n')
  }

  function LeadState(x: string): ValueState {
    if x == "" then EMPTY_VALUE else EMPTY_VALUE.(line := [Space(x)])
  }

  lemma LeadRead(x: string, more: string)
    requires Lead(x) && more != "" && !IsSpace(more[0]) && (x != "" ==> !StartsComment(x + more))
    ensures ValueLoop(EMPTY_VALUE, x + more, false) == ValueLoop(LeadState(x), more, false)
  {
    if x == "" {
      assert x + more == more;
    } else {
      var s := x + more;
      assert s[..|x|] == x && s[|x|..] == more;
      SpaceLengthOnly(s, |x|);
      SpaceToken(s);
      LineLengthOnly("", 0);
    }
  }

  /** A comment on one line, without a brace. */
  predicate Note(c: string, tail: string) {
    StartsComment(c) && '\n' !in c && '{' !in c && MatchLength(HiddenRule, c + tail) == 0
  }

  lemma {:induction false} NoBraceGroup(s: string, k: nat, end: nat)
    requires k <= end <= |s| && forall i | 0 <= i < end :: s[i] != '{'
    ensures FirstBraceGroup(s, k, end) == end
    decreases end - k
  {
    if k < end {
      assert s[k..][0] == s[k];
      NoBraceGroup(s, k + 1, end);
    }
  }

  lemma CommentLine(c: string, tail: string)
    requires StartsComment(c) && '\n' !in c && (tail == "" || tail[0] == '\n')
    ensures LineLength(c + tail) == |c| && StartsComment(c + tail) && BlankLength(c + tail) == BlankLength(c)
  {
    assert forall i | 0 <= i < |c| :: (c + tail)[i] == c[i] && c[i] in c;
    LineLengthOnly(c + tail, |c|);
    Y.BlankStops(c, tail);
  }

  lemma NoteToken(c: string, tail: string)
    requires Note(c, tail) && (tail == "" || tail[0] == '\n')
    ensures Lex(c + tail) == Token(Comment, c)
  {
    var s := c + tail;
    CommentLine(c, tail);
    assert forall i | 0 <= i < |c| :: s[i] == c[i] && c[i] in c;
    NoBraceGroup(s, BlankLength(s) + 1, |c|);
    NoteRules(s);
    assert s[..|c|] == c;
  }

  lemma NoteRules(s: string)
    requires StartsComment(s) && MatchLength(HiddenRule, s) == 0
    requires MatchLength(CommentBeforeBraceRule, s) == 0 && LineLength(s) > 0
    ensures Lex(s) == Token(Comment, s[..LineLength(s)])
  {
    assert CONFIG_SPEC[0] == HiddenRule && CONFIG_SPEC[1] == CommentBeforeBraceRule && CONFIG_SPEC[2] == CommentRule;
    assert CONFIG_SPEC[0..] == CONFIG_SPEC;
    Y.SpecFrom(0, s);
    Y.SpecFrom(1, s);
    Y.SpecFrom(2, s);
  }

  lemma NoteComment(c: string, tail: string)
    requires Note(c, tail) && (tail == "" || tail[0] == '\n')
    ensures Lex(c + tail) == Token(Comment, c) && ParseComment(c + tail) == Parsed([CommentText(c)], tail)
  {
    NoteToken(c, tail);
    assert (c + tail)[|c|..] == tail;
    if tail != "" {
      LexSpace(tail);
      assert Lex(tail).text[0] == '\n';
    }
    assert c != "" && [] + [CommentText(c)] == [CommentText(c)];
    assert FlushComment([], c) == [CommentText(c)];
    assert CommentLoop([], c, tail) == Parsed([CommentText(c)], tail);
  }

  lemma NoteRead(st: ValueState, c: string, tail: string)
    requires Note(c, tail) && (tail == "" || tail[0] == '\n')
    ensures ValueLoop(st, c + tail, false) == ValueLoop(AddPiece(st, Remark([CommentText(c)])), tail, false)
  {
    NoteComment(c, tail);
  }

  // ------------------------------------------------------------------------------------ written and read again

  /** The line of a value on one line: layout, text and a comment, each of which may be missing. */
  function OneLine(x: string, text: string, c: string): Line {
    (if x == "" then [] else [Space(x)]) + (if text == "" then [] else [Entry(text)])
    + (if c == "" then [] else [Remark([CommentText(c)])])
  }

  predicate IsText(text: string) {
    text == "" || !IsSpace(text[0])
  }

  lemma OneLineTarget(x: string, text: string, c: string)
    requires IsText(text) && OneLine(x, text, c) != []
    ensures FindTarget([OneLine(x, text, c)]) == if text == "" then None else Some((0, if x == "" then 0 else 1))
    ensures BehindComment([OneLine(x, text, c)]) <==> text == "" && x != "" && c != ""
  {
    var line := OneLine(x, text, c);
    FirstInkIs(line);
    var j := if x == "" then 0 else 1;
    if text != "" {
      assert line[j] == Entry(text) && IsInk(line[j]);
      assert forall m | 0 <= m < j :: line[m].Space?;
    } else {
      assert forall m | 0 <= m < |line| :: !line[m].Entry?;
      if x != "" && c != "" {
        assert line[1].Remark?;
      }
    }
  }

  /** The line after the new value is set. */
  function WrittenLine(x: string, text: string, c: string, value: string): Line {
    if text == "" && x == "" then [Entry(value)] + OneLine("", "", c)
    else if text == "" then OneLine(x, "", c) + [Entry(value)]
    else OneLine(x, value, c)
  }

  lemma OneLineRewrite(x: string, text: string, c: string, value: string)
    requires IsText(text) && OneLine(x, text, c) != [] && value != ""
    ensures Rewrite([OneLine(x, text, c)], value) == [WrittenLine(x, text, c, value)]
  {
    var line := OneLine(x, text, c);
    OneLineTarget(x, text, c);
    if text == "" {
      assert Headed(line, value) == WrittenLine(x, text, c, value);
    } else {
      var j := if x == "" then 0 else 1;
      assert Indent(text) == "" && "" + value == value;
      assert line[j := Entry(value)] == WrittenLine(x, text, c, value);
      assert [line][1..] == [] && Retained([]) == [];
    }
  }

  /** The text of a line of these pieces, with comments and without. */
  lemma OneLineText(x: string, text: string, c: string)
    ensures Concat(PieceText, OneLine(x, text, c)) == x + text + c
    ensures Concat(PieceValue, OneLine(x, text, c)) == x + text
  {
    ConcatOne(CommentPartText, CommentText(c));
    OneLineShown(PieceText, x, text, c);
    OneLineShown(PieceValue, x, text, c);
    L.Empties(x + text);
    L.Empties(x + text + c);
  }

  lemma OneLineShown(f: Piece -> string, x: string, text: string, c: string)
    requires f(Space(x)) == x && f(Entry(text)) == text
    ensures Concat(f, OneLine(x, text, c)) == x + text + if c == "" then "" else f(Remark([CommentText(c)]))
  {
    var a := if x == "" then [] else [Space(x)];
    var b := if text == "" then [] else [Entry(text)];
    assert a + b + [] == a + b && a + [] == a;
    ConcatOne(f, Space(x));
    ConcatPush(f, a, Entry(text));
    ConcatPush(f, a + b, Remark([CommentText(c)]));
  }

  lemma OneLineRender(f: Piece -> string, line: Line)
    ensures Render(f, [line]) == Concat(f, line)
  {
    assert [line][1..] == [];
    assert Render(f, [line][1..]) == "";
  }

  lemma WrittenText(x: string, text: string, c: string, value: string)
    requires value != ""
    ensures LinesText([WrittenLine(x, text, c, value)])
            == if text == "" && x != "" then x + c + value else x + value + c
  {
    var line := WrittenLine(x, text, c, value);
    OneLineRender(PieceText, line);
    OneLineText(x, text, c);
    OneLineText(x, value, c);
    OneLineText("", value, c);
    if text == "" && x == "" {
      assert line == OneLine("", value, c);
    } else if text == "" {
      OneLineText(x, "", c);
      assert x + "" + c == x + c;
      ConcatPush(PieceText, OneLine(x, "", c), Entry(value));
    }
  }

  /** A value behind layout and before a comment or the end is read as it is. */
  lemma ValueReadsBack(x: string, c: string, value: string, tail: string)
    requires Lead(x) && Inline(value) && Ends(tail) && (c != "" ==> Note(c, tail))
    ensures ParseValue(x + value + c + tail, false) == Parsed([OneLine(x, value, c)], tail)
  {
    ValueEnds(EMPTY_VALUE, tail);
    N.ClosedIsOutside(value);
    ApartNote(c, tail);
    LeadAndValue(x, value, c + tail);
    Parts(x, value, c, tail);
    ReadOn(Entered(LeadState(x), value), c, tail);
    FinishedLine(x, value, c);
  }

  lemma Parts(a: string, b: string, c: string, d: string)
    ensures a + b + c + d == a + (b + (c + d))
  {
  }

  lemma LeadAndValue(x: string, value: string, post: string)
    requires Lead(x) && Inline(value) && Apart(post)
    ensures ValueLoop(EMPTY_VALUE, x + (value + post), false)
            == ValueLoop(Entered(LeadState(x), value), post, false)
  {
    NoComment(x, value, post);
    LeadRead(x, value + post);
    InlineRead(LeadState(x), value, post);
  }

  lemma NoComment(x: string, value: string, post: string)
    requires Lead(x) && value != "" && InlineRest(value) && !IsSpace(value[0])
    ensures x != "" ==> !StartsComment(x + (value + post))
  {
    if x != "" {
      BlankIn(x, value[0], value[1..] + post);
      assert x + (value + post) == x + ([value[0]] + (value[1..] + post));
    }
  }

  lemma {:induction false} BlankIn(x: string, ch: char, more: string)
    requires AllSpace(x) && !IsSpace(ch)
    ensures var s := x + ([ch] + more);
            BlankLength(s) <= |x| && (s[BlankLength(s)] == ch || IsSpace(s[BlankLength(s)]))
  {
    var s := x + ([ch] + more);
    if x != "" && IsBlank(x[0]) {
      BlankIn(x[1..], ch, more);
      assert s[1..] == x[1..] + ([ch] + more);
    } else if x == "" {
      assert s == [ch] + more;
    }
  }

  lemma ApartNote(c: string, tail: string)
    requires (c != "" ==> StartsComment(c)) && (tail != "" ==> tail[0] == '\n')
    ensures Apart(c + tail)
  {
    if c == "" {
      assert c + tail == tail;
    } else {
      assert (c + tail)[0] == c[0];
      BlankBefore(c);
    }
  }

  /** After the value: a comment, if there is one, and the end. */
  lemma ReadOn(st: ValueState, c: string, tail: string)
    requires Ends(tail) && (c != "" ==> Note(c, tail)) && Closed(st.balance)
    ensures ValueLoop(st, c + tail, false)
            == Parsed(FinishValue(if c == "" then st else AddPiece(st, Remark([CommentText(c)]))), tail)
  {
    if c == "" {
      assert c + tail == tail;
      ValueEnds(st, tail);
    } else {
      ValueEnds(AddPiece(st, Remark([CommentText(c)])), tail);
      NoteRead(st, c, tail);
    }
  }

  lemma FinishedLine(x: string, value: string, c: string)
    requires value != ""
    ensures var st := Entered(LeadState(x), value);
            FinishValue(if c == "" then st else AddPiece(st, Remark([CommentText(c)]))) == [OneLine(x, value, c)]
  {
    assert "" + value == value;
    var line := if x == "" then [] else [Space(x)];
    assert Entered(LeadState(x), value).line == line;
    assert line + [Entry(value)] == OneLine(x, value, "");
    assert [] + [OneLine(x, value, c)] == [OneLine(x, value, c)];
    if c != "" {
      assert line + [Entry(value)] + [Remark([CommentText(c)])] == OneLine(x, value, c);
    }
  }

  // --------------------------------------------------------------------------------------- the value that is lost

  /** Layout that is not part of the comment after it. */
  predicate LeadsNote(x: string, c: string) {
    Lead(x) && BlankLength(x) < |x| && c != "" && !IsSpace(c[0])
  }

  lemma LeadNoComment(x: string, more: string)
    requires BlankLength(x) < |x| && AllSpace(x)
    ensures !StartsComment(x + more)
  {
    Y.BlankStops(x, more);
    assert (x + more)[BlankLength(x)] == x[BlankLength(x)];
  }

  lemma LeadOfNote(x: string, more: string)
    requires Lead(x) && BlankLength(x) < |x| && more != "" && !IsSpace(more[0])
    ensures ValueLoop(EMPTY_VALUE, x + more, false) == ValueLoop(LeadState(x), more, false)
  {
    LeadNoComment(x, more);
    LeadRead(x, more);
  }

  /** An option with layout and a comment but no value. */
  lemma LayoutRead(x: string, c: string, tail: string)
    requires LeadsNote(x, c) && Note(c, tail) && Ends(tail)
    ensures ParseValue(x + c + tail, false) == Parsed([OneLine(x, "", c)], tail)
  {
    Associate(x, c, tail);
    LeadOfNote(x, c + tail);
    ReadOn(LeadState(x), c, tail);
    assert [Space(x)] + [Remark([CommentText(c)])] == OneLine(x, "", c);
    assert [] + [OneLine(x, "", c)] == [OneLine(x, "", c)];
  }

  lemma {:induction false} KeptSoFar(st: ValueState, s: string)
    ensures L.StateText(PieceValue, st) <= LinesValue(ValueLoop(st, s, false).value)
    decreases |s|
  {
    if s == "" || ValueStep(st, s, false).None? {
      L.FinishValueText(PieceValue, st);
    } else {
      var next := ValueStep(st, s, false).value;
      KeptSoFar(next.value, next.rest);
      L.ValueStepText(PieceValue, st, s, false);
      if Lex(s).kind != Comment {
        Longer(L.StateText(PieceValue, next.value), next.rest, L.StateText(PieceValue, st), s);
      }
    }
  }

  lemma Longer(a: string, x: string, b: string, y: string)
    requires a + x == b + y && |x| <= |y|
    ensures b <= a
  {
    assert (a + x)[..|b|] == (b + y)[..|b|];
    assert (a + x)[..|b|] == a[..|b|];
  }

  lemma StripsTo(x: string, ch: char, r: string)
    requires AllSpace(x) && !IsSpace(ch) && x + [ch] <= r
    ensures Strip(r) != "" && Strip(r)[0] == ch
  {
    var more := r[|x|..];
    assert r == x + more && more[0] == ch;
    LStripPadded(x, more);
    StripInk(r);
    NoInk(r);
    assert r[|x|] == ch;
  }

  /** A value written behind the comment is not what is read. */
  lemma ValueLost(x: string, c: string, value: string, tail: string)
    requires LeadsNote(x, c) && Note(c, tail) && Inline(value) && Ends(tail)
    ensures Strip(LinesValue(ParseValue(x + c + value + tail, false).value)) != value
  {
    var l := c + value;
    Associate(x, c, value);
    LongerNote(c, value);
    if MatchLength(HiddenRule, l + tail) == 0 {
      LostInComment(x, l, tail);
    } else {
      LostInHidden(x, l, tail);
    }
  }

  lemma LostInComment(x: string, l: string, tail: string)
    requires LeadsNote(x, l) && Note(l, tail) && Ends(tail)
    ensures Strip(LinesValue(ParseValue(x + l + tail, false).value)) == ""
  {
    LayoutRead(x, l, tail);
    OneLineRender(PieceValue, OneLine(x, "", l));
    OneLineText(x, "", l);
    assert x + "" == x + "" + "";
    StripPadded(x, "", "");
  }

  lemma LostInHidden(x: string, l: string, tail: string)
    requires Lead(x) && BlankLength(x) < |x| && l != "" && !IsSpace(l[0]) && MatchLength(HiddenRule, l + tail) > 0
    ensures var r := Strip(LinesValue(ParseValue(x + l + tail, false).value)); r != "" && r[0] == l[0]
  {
    Associate(x, l, tail);
    LeadOfNote(x, l + tail);
    HiddenKept(LeadState(x), l, tail);
    LeadText(x);
    StripsTo(x, l[0], LinesValue(ParseValue(x + l + tail, false).value));
  }

  lemma LeadText(x: string)
    ensures L.StateText(PieceValue, LeadState(x)) == x
  {
    ConcatOne(PieceValue, Space(x));
  }

  lemma LongerNote(c: string, value: string)
    requires StartsComment(c) && !IsSpace(c[0]) && '\n' !in c && '{' !in c && Inline(value)
    ensures StartsComment(c + value) && '\n' !in c + value && '{' !in c + value && (c + value)[0] == c[0]
    ensures c[0] == '#' || c[0] == ';'
  {
    Y.BlankStops(c, value);
    Y.InAppend(c, value, '\n');
    Y.InAppend(c, value, '{');
  }

  lemma HiddenFirst(s: string)
    requires s != "" && MatchLength(HiddenRule, s) > 0
    ensures Lex(s).kind == HiddenOptionComment && Lex(s).text[0] == s[0]
  {
    assert CONFIG_SPEC[0..] == CONFIG_SPEC && CONFIG_SPEC[0] == HiddenRule;
    Y.SpecFrom(0, s);
  }

  lemma AddTextState(st: ValueState, text: string)
    ensures L.StateText(PieceValue, AddText(st, text)) == L.StateText(PieceValue, st) + text
  {
    Associate(Render(PieceValue, st.lines) + Concat(PieceValue, st.line), st.entry, text);
  }

  lemma HiddenKept(st: ValueState, l: string, tail: string)
    requires l != "" && MatchLength(HiddenRule, l + tail) > 0
    ensures L.StateText(PieceValue, st) + [l[0]] <= LinesValue(ValueLoop(st, l + tail, false).value)
  {
    var s := l + tail;
    HiddenFirst(s);
    var t := Lex(s).text;
    AddTextState(st, t);
    KeptSoFar(AddText(st, t), After(s, Lex(s)));
    OneMore(L.StateText(PieceValue, st), t, LinesValue(ValueLoop(st, s, false).value));
  }

  lemma OneMore(a: string, t: string, r: string)
    requires t != "" && a + t <= r
    ensures a + [t[0]] <= r
  {
    assert (a + t)[..|a| + 1] == a + [t[0]];
  }

  // -------------------------------------------------------------------------------------------------- results

  /** The layout of an option on one line: what the parser makes of such a line. */
  predicate IsLayout(x: string, text: string, c: string, tail: string) {
    && Lead(x) && IsText(text) && (c != "" ==> Note(c, tail))
    && (text == "" && x != "" && c != "" ==> LeadsNote(x, c))
    && OneLine(x, text, c) != []
  }

  /** For every one-line option and every one-line value: after the value is set, the text written and parsed
      again, it reads back exactly when it was not written behind a comment. */
  lemma ReparsedReadsBack(x: string, text: string, c: string, value: string, tail: string)
    requires IsLayout(x, text, c, tail) && Inline(value) && Ends(tail)
    ensures var lines := [OneLine(x, text, c)];
            Strip(LinesValue(ParseValue(LinesText(Rewrite(lines, value)) + tail, false).value)) == value
            <==> !BehindComment(lines)
  {
    OneLineTarget(x, text, c);
    RewrittenText(x, text, c, value);
    if text == "" && x != "" && c != "" {
      ValueLost(x, c, value, tail);
    } else {
      ReadsBack(x, c, value, tail);
    }
  }

  lemma RewrittenText(x: string, text: string, c: string, value: string)
    requires IsText(text) && OneLine(x, text, c) != [] && value != ""
    ensures LinesText(Rewrite([OneLine(x, text, c)], value))
            == if text == "" && x != "" && c != "" then x + c + value else x + value + c
  {
    OneLineRewrite(x, text, c, value);
    WrittenText(x, text, c, value);
    L.Empties(x);
    L.Empties(x + value);
  }

  lemma ReadsBack(x: string, c: string, value: string, tail: string)
    requires Lead(x) && Inline(value) && Ends(tail) && (c != "" ==> Note(c, tail))
    ensures Strip(LinesValue(ParseValue(x + value + c + tail, false).value)) == value
  {
    ValueReadsBack(x, c, value, tail);
    OneLineRender(PieceValue, OneLine(x, value, c));
    OneLineText(x, value, c);
    assert x + value + "" == x + value;
    StripPadded(x, value, "");
  }

  const LEAD := "\n    "
  const NOTE := "# note"

  /** The layout is the parser's: an option with only a comment on the line after its name. In memory the new value
      reads back; in the written text it is part of the comment. */
  lemma ValueLostBehindComment()
    ensures var lines := ParseValue(LEAD + NOTE, false).value;
            && lines == [[Space(LEAD), Remark([CommentText(NOTE)])]]
            && BehindComment(lines)
            && Strip(LinesValue(Rewrite(lines, "5"))) == "5"
            && LinesText(Rewrite(lines, "5")) == LEAD + NOTE + "5"
            && Strip(LinesValue(ParseValue(LEAD + NOTE + "5", false).value)) == ""
  {
    LayoutHere();
    TextHere();
    InMemory();
    LostInText();
  }

  const OPTION_LINE := [Space(LEAD), Remark([CommentText(NOTE)])]

  lemma LineHere()
    ensures OneLine(LEAD, "", NOTE) == OPTION_LINE
  {
  }

  lemma LayoutHere()
    ensures ParseValue(LEAD + NOTE, false).value == [OPTION_LINE] && BehindComment([OPTION_LINE])
  {
    NoteHere();
    FiveHere();
    LineHere();
    LayoutRead(LEAD, NOTE, "");
    L.Empties(LEAD + NOTE);
    OneLineTarget(LEAD, "", NOTE);
  }

  lemma TextHere()
    ensures LinesText(Rewrite([OPTION_LINE], "5")) == LEAD + NOTE + "5"
  {
    LineHere();
    OneLineRewrite(LEAD, "", NOTE, "5");
    WrittenText(LEAD, "", NOTE, "5");
  }

  lemma InMemory()
    ensures Strip(LinesValue(Rewrite([OPTION_LINE], "5"))) == "5"
  {
    NoteHere();
    FiveHere();
    LineHere();
    OneLineTarget(LEAD, "", NOTE);
    RewriteReadsBack([OneLine(LEAD, "", NOTE)], "5");
    OneLineRender(PieceValue, OneLine(LEAD, "", NOTE));
    OneLineText(LEAD, "", NOTE);
  }

  lemma LostInText()
    ensures Strip(LinesValue(ParseValue(LEAD + NOTE + "5", false).value)) == ""
  {
    NoteHere();
    FiveHere();
    LongerNote(NOTE, "5");
    Associate(LEAD, NOTE, "5");
    L.Empties(NOTE + "5");
    L.Empties(LEAD + (NOTE + "5"));
    NoHidden("5");
    LostInComment(LEAD, NOTE + "5", "");
  }

  lemma NoHidden(more: string)
    ensures MatchLength(HiddenRule, NOTE + more) == 0
  {
    assert BlankLength(NOTE + more) == 0 && (NOTE + more)[2] == 'n';
    assert (NOTE + more)[0..] == NOTE + more && HIDDEN_TEXT[2] == 'S';
  }

  lemma NoteHere()
    ensures LeadsNote(LEAD, NOTE) && Note(NOTE, "")
  {
    assert BlankLength(LEAD) == 0 && BlankLength(NOTE) == 0;
    assert AllSpace(LEAD) && BreakIndex(LEAD) == 0;
    NoHidden("");
  }

  lemma FiveHere()
    ensures Inline("5")
  {
    OneCharacter('5');
  }
}
