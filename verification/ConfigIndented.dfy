/** A value that starts on an indented line below its key: after it is set, written and parsed again, the lines are
    those in memory. */
module ConfigIndented {
  import opened Text
  import opened ConfigTokens
  import opened ConfigTree
  import opened ConfigGrammar
  import opened ConfigLookup
  import opened ConfigEdit
  import opened ConfigReparse
  import opened ConfigFailures
  import L = ConfigLossless
  import N = ConfigValueEnd
  import V = ConfigValues
  import Y = ConfigLocality
  import O = ConfigOverwrite

  /** What stands behind the key: blanks, or a comment with the blanks before it. */
  function KeyPiece(x: string, c: string): Piece {
    if c == "" then Space(x) else Remark([CommentText(c)])
  }

  function KeyText(x: string, c: string): string {
    if c == "" then x else c
  }

  /** `more` is what follows on the lines below. */
  predicate BehindKey(x: string, c: string, more: string) {
    if c == "" then x != "" && AllBlank(x) else Note(c, more)
  }

  predicate IsIndentation(indent: string) {
    indent != "" && AllBlank(indent)
  }

  /** The lines of such a value: the key's line, the line the value starts on, and further lines of it. */
  function Below(key: Piece, indent: string, text: string, c: string, more: seq<Line>): seq<Line> {
    [[key, Entry("\n")], [Entry(indent + text)] + if c == "" then [] else [Remark([CommentText(c)])]] + more
  }

  lemma BlankIsSpace(x: string)
    requires AllBlank(x)
    ensures AllSpace(x)
  {
  }

  /** The whitespace token from the key to the value. */
  lemma GapToken(x: string, indent: string, more: string)
    requires AllBlank(x) && IsIndentation(indent) && more != "" && !IsSpace(more[0])
    ensures var s := x + "\n" + indent + more;
            Lex(s) == Token(Whitespace, x + "\n" + indent)
  {
    var gap := x + "\n" + indent;
    BlankIsSpace(x);
    BlankIsSpace(indent);
    var s := gap + more;
    assert forall i | 0 <= i < |gap| :: s[i] == gap[i] && IsSpace(gap[i]);
    assert s[|gap|] == more[0];
    SpaceLengthOnly(s, |gap|);
    NoCommentBeforeBreak(x, s);
    SpaceToken(s);
    assert s[..|gap|] == gap;
  }

  lemma NoCommentBeforeBreak(x: string, s: string)
    requires AllBlank(x) && |x| < |s| && x <= s && s[|x|] == '\n'
    ensures !StartsComment(s)
  {
    assert s[..|x|] == x;
    BlankLengthOnly(s, |x|);
  }

  /** Whitespace that does not end with a line break does not end a value. */
  lemma GapRead(st: ValueState, s: string, gap: string)
    requires s != "" && Lex(s) == Token(Whitespace, gap) && gap[|gap| - 1] != '\n'
    ensures ValueLoop(st, s, false)
            == ValueLoop(AddSpace(st, TakenSpace(gap)), s[|TakenSpace(gap)|..], false)
  {
  }

  lemma LastOfGap(x: string, indent: string)
    requires indent != ""
    ensures var gap := x + "\n" + indent; gap[|gap| - 1] == indent[|indent| - 1]
  {
  }

  lemma KeyRead(x: string, indent: string, more: string)
    requires x != "" && AllBlank(x) && IsIndentation(indent) && more != "" && !IsSpace(more[0])
    ensures ValueLoop(EMPTY_VALUE, x + "\n" + indent + more, false)
            == ValueLoop(EMPTY_VALUE.(line := [Space(x)]), "\n" + indent + more, false)
  {
    GapToken(x, indent, more);
    GapBreak(x, indent);
    LastOfGap(x, indent);
    AfterBlanks(x, indent, more);
    FirstGapRead(x + "\n" + indent + more, x + "\n" + indent, x, "\n" + indent + more);
  }

  lemma AfterBlanks(x: string, indent: string, more: string)
    ensures (x + "\n" + indent + more)[|x|..] == "\n" + indent + more
  {
  }

  lemma FirstGapRead(s: string, gap: string, x: string, rest: string)
    requires s != "" && Lex(s) == Token(Whitespace, gap) && gap[|gap| - 1] != '\n'
    requires TakenSpace(gap) == x && s[|x|..] == rest
    ensures ValueLoop(EMPTY_VALUE, s, false) == ValueLoop(EMPTY_VALUE.(line := [Space(x)]), rest, false)
  {
    GapRead(EMPTY_VALUE, s, gap);
    FirstSpace(x);
  }

  lemma FirstSpace(x: string)
    ensures AddSpace(EMPTY_VALUE, x) == EMPTY_VALUE.(line := [Space(x)])
  {
    LineLengthOnly("", 0);
  }

  lemma {:induction false} GapBreak(x: string, indent: string)
    requires AllBlank(x)
    ensures BreakIndex(x + "\n" + indent) == |x|
    ensures x != "" ==> TakenSpace(x + "\n" + indent) == x
  {
    var s := x + "\n" + indent;
    if x != "" {
      GapBreak(x[1..], indent);
      assert s[1..] == x[1..] + "\n" + indent;
      assert s[0] == x[0];
      assert s[..|x|] == x;
    }
  }

  lemma IndentRead(key: Piece, indent: string, more: string)
    requires IsIndentation(indent) && more != "" && !IsSpace(more[0])
    ensures ValueLoop(EMPTY_VALUE.(line := [key]), "\n" + indent + more, false)
            == ValueLoop(ValueState([[key, Entry("\n")]], [], indent, BALANCED), more, false)
  {
    var gap := "\n" + indent;
    var s := gap + more;
    GapToken("", indent, more);
    L.Empties("\n");
    assert gap[|gap| - 1] == indent[|indent| - 1];
    GapBreak("", indent);
    assert gap[..|gap|] == gap;
    assert TakenSpace(gap) == gap;
    GapRead(EMPTY_VALUE.(line := [key]), s, gap);
    assert s[|gap|..] == more;
    IndentAdded(key, indent);
  }

  lemma IndentAdded(key: Piece, indent: string)
    requires AllBlank(indent)
    ensures AddSpace(EMPTY_VALUE.(line := [key]), "\n" + indent)
            == ValueState([[key, Entry("\n")]], [], indent, BALANCED)
  {
    BlankIsSpace(indent);
    N.SpaceScanned("\n" + indent);
    SplitGap(key, indent);
  }

  lemma SplitGap(key: Piece, indent: string)
    requires AllBlank(indent)
    ensures SplitEntry(ValueState([], [key], "" + ("\n" + indent), BALANCED))
            == ValueState([[key, Entry("\n")]], [], indent, BALANCED)
  {
    var gap := "" + ("\n" + indent);
    LineLengthOnly(gap, 0);
    assert gap[..1] == "\n" && gap[1..] == indent;
    assert [key] + [Entry("\n")] == [key, Entry("\n")];
    assert [] + [[key, Entry("\n")]] == [[key, Entry("\n")]];
    LineLengthOnly(indent, |indent|);
  }

  lemma KeyLineRead(x: string, c: string, indent: string, more: string)
    requires BehindKey(x, c, "\n" + indent + more) && IsIndentation(indent) && more != "" && !IsSpace(more[0])
    ensures ValueLoop(EMPTY_VALUE, KeyText(x, c) + ("\n" + indent + more), false)
            == ValueLoop(EMPTY_VALUE.(line := [KeyPiece(x, c)]), "\n" + indent + more, false)
  {
    if c == "" {
      KeyRead(x, indent, more);
      FourParts(x, "\n", indent, more);
    } else {
      NoteRead(EMPTY_VALUE, c, "\n" + indent + more);
      assert AddPiece(EMPTY_VALUE, KeyPiece(x, c)) == EMPTY_VALUE.(line := [KeyPiece(x, c)]);
    }
  }

  lemma FourParts(a: string, b: string, c: string, d: string)
    ensures a + b + c + d == a + (b + c + d)
  {
  }

  /** The written text is parsed to the lines in memory. */
  lemma BelowIsRead(x: string, c0: string, indent: string, value: string, c: string, tail: string)
    requires BehindKey(x, c0, "\n" + indent + (value + (c + tail))) && IsIndentation(indent)
    requires Inline(value) && Ends(tail) && (c != "" ==> Note(c, tail))
    ensures ParseValue(KeyText(x, c0) + ("\n" + indent + (value + (c + tail))), false)
            == Parsed(Below(KeyPiece(x, c0), indent, value, c, []), tail)
  {
    var more := value + (c + tail);
    assert more[0] == value[0];
    KeyLineRead(x, c0, indent, more);
    IndentRead(KeyPiece(x, c0), indent, more);
    ValueAndRest(KeyPiece(x, c0), indent, value, c, tail);
  }

  lemma ValueAndRest(key: Piece, indent: string, value: string, c: string, tail: string)
    requires IsIndentation(indent) && Inline(value) && Ends(tail) && (c != "" ==> Note(c, tail))
    ensures ValueLoop(ValueState([[key, Entry("\n")]], [], indent, BALANCED), value + (c + tail), false)
            == Parsed(Below(key, indent, value, c, []), tail)
  {
    var st := ValueState([[key, Entry("\n")]], [], indent, BALANCED);
    ValueEnds(EMPTY_VALUE, tail);
    ApartNote(c, tail);
    InlineRead(st, value, c + tail);
    N.ClosedIsOutside(value);
    ReadOn(Entered(st, value), c, tail);
    BelowFinished(key, indent, value, c);
  }

  lemma BelowFinished(key: Piece, indent: string, value: string, c: string)
    requires value != ""
    ensures var st := Entered(ValueState([[key, Entry("\n")]], [], indent, BALANCED), value);
            FinishValue(if c == "" then st else AddPiece(st, Remark([CommentText(c)])))
            == Below(key, indent, value, c, [])
  {
    var first := [key, Entry("\n")];
    var st := Entered(ValueState([first], [], indent, BALANCED), value);
    assert st.entry == indent + value && st.entry != "";
    assert [] + [Entry(indent + value)] == [Entry(indent + value)];
    if c == "" {
      assert [Entry(indent + value)] + [] == [Entry(indent + value)];
    }
    assert [first] + [[Entry(indent + value)] + if c == "" then [] else [Remark([CommentText(c)])]]
        == Below(key, indent, value, c, []);
  }

  // ---------------------------------------------------------------------------------------- set and written

  lemma {:induction false} AllDropped(more: seq<Line>)
    requires forall i | 0 <= i < |more| :: O.StartsWithText(more[i])
    ensures Retained(more) == []
  {
    if more != [] {
      assert O.StartsWithText(more[0]);
      O.HoldsTextIs(more[0][0]);
      AllDropped(more[1..]);
    }
  }

  lemma IndentOf(indent: string, text: string)
    requires AllBlank(indent) && text != "" && !IsSpace(text[0])
    ensures Indent(indent + text) == indent && O.HoldsText(Entry(indent + text))
  {
    var s := indent + text;
    assert s[..|indent|] == indent && s[|indent|] == text[0];
    BlankLengthOnly(s, |indent|);
  }

  lemma TargetBelow(key: Piece, indent: string, text: string, c: string, more: seq<Line>)
    requires !key.Entry? && AllBlank(indent) && text != "" && !IsSpace(text[0])
    ensures FindTarget(Below(key, indent, text, c, more)) == Some((1, 0))
  {
    var lines := Below(key, indent, text, c, more);
    IndentOf(indent, text);
    assert lines[0] == [key, Entry("\n")] && lines[1][0] == Entry(indent + text);
    assert O.NoText(lines[0]);
    O.FirstTextIs(lines, 1, 0);
  }

  lemma RewrittenBelow(key: Piece, indent: string, text: string, c: string, more: seq<Line>, value: string)
    requires !key.Entry? && AllBlank(indent) && text != "" && !IsSpace(text[0])
    requires forall i | 0 <= i < |more| :: O.StartsWithText(more[i])
    ensures Rewrite(Below(key, indent, text, c, more), value) == Below(key, indent, value, c, [])
  {
    var lines := Below(key, indent, text, c, more);
    TargetBelow(key, indent, text, c, more);
    IndentOf(indent, text);
    AllDropped(more);
    var rest := if c == "" then [] else [Remark([CommentText(c)])];
    assert lines[1] == [Entry(indent + text)] + rest;
    assert lines[1][0 := Entry(indent + value)] == [Entry(indent + value)] + rest;
    assert lines[..1] == [[key, Entry("\n")]] && lines[2..] == more;
  }

  lemma KeyLineText(x: string, c: string)
    ensures Concat(PieceText, [KeyPiece(x, c), Entry("\n")]) == KeyText(x, c) + "\n"
    ensures Concat(PieceValue, [KeyPiece(x, c), Entry("\n")]) == (if c == "" then x else "") + "\n"
  {
    ConcatOne(CommentPartText, CommentText(c));
    ConcatOne(PieceText, KeyPiece(x, c));
    ConcatOne(PieceValue, KeyPiece(x, c));
    ConcatPush(PieceText, [KeyPiece(x, c)], Entry("\n"));
    ConcatPush(PieceValue, [KeyPiece(x, c)], Entry("\n"));
    assert [KeyPiece(x, c)] + [Entry("\n")] == [KeyPiece(x, c), Entry("\n")];
  }

  lemma TwoLines(f: Piece -> string, a: Line, b: Line)
    ensures Render(f, [a, b]) == Concat(f, a) + Concat(f, b)
  {
    assert [a, b][1..] == [b] && [b][1..] == [];
    assert Render(f, []) == "";
  }

  lemma BelowText(x: string, c0: string, indent: string, value: string, c: string)
    requires value != ""
    ensures LinesText(Below(KeyPiece(x, c0), indent, value, c, []))
            == KeyText(x, c0) + "\n" + (indent + value + c)
    ensures LinesValue(Below(KeyPiece(x, c0), indent, value, c, []))
            == (if c0 == "" then x else "") + "\n" + (indent + value)
  {
    var first := [KeyPiece(x, c0), Entry("\n")];
    var second := OneLine("", indent + value, c);
    var rest := if c == "" then [] else [Remark([CommentText(c)])];
    assert [] + [Entry(indent + value)] + rest == [Entry(indent + value)] + rest;
    assert second == [Entry(indent + value)] + rest;
    assert Below(KeyPiece(x, c0), indent, value, c, []) == [first, second];
    KeyLineText(x, c0);
    OneLineText("", indent + value, c);
    TwoLines(PieceText, first, second);
    TwoLines(PieceValue, first, second);
    L.Empties(indent + value);
  }

  lemma SameText(key: string, indent: string, value: string, c: string, tail: string)
    ensures key + "\n" + (indent + value + c) + tail == key + ("\n" + indent + (value + (c + tail)))
  {
  }

  lemma BelowStrips(a: string, indent: string, value: string)
    requires AllBlank(a) && AllBlank(indent) && Stripped(value)
    ensures Strip(a + "\n" + (indent + value)) == value
  {
    var lead := a + "\n" + indent;
    assert a + "\n" + (indent + value) == lead + value + "";
    BlankIsSpace(a);
    BlankIsSpace(indent);
    assert forall i | 0 <= i < |lead| :: IsSpace(lead[i]);
    StripPadded(lead, value, "");
  }

  /** For every value that starts on an indented line below its key, behind blanks or a comment, with any further
      lines, and every one-line value: after the value is set and the text written, it is parsed to the lines in
      memory, and the new value reads back. */
  lemma ReparsedBelow(x: string, c0: string, indent: string, text: string, c: string, more: seq<Line>, value: string,
                      tail: string)
    requires BehindKey(x, c0, "\n" + indent + (value + (c + tail))) && IsIndentation(indent)
    requires text != "" && !IsSpace(text[0]) && (c != "" ==> Note(c, tail))
    requires forall i | 0 <= i < |more| :: O.StartsWithText(more[i])
    requires Inline(value) && Ends(tail)
    ensures var lines := Rewrite(Below(KeyPiece(x, c0), indent, text, c, more), value);
            && LinesText(lines) == KeyText(x, c0) + "\n" + (indent + value + c)
            && ParseValue(LinesText(lines) + tail, false) == Parsed(lines, tail)
            && Strip(LinesValue(lines)) == value
  {
    RewrittenBelow(KeyPiece(x, c0), indent, text, c, more, value);
    BelowText(x, c0, indent, value, c);
    BelowIsRead(x, c0, indent, value, c, tail);
    SameText(KeyText(x, c0), indent, value, c, tail);
    BelowStrips(if c0 == "" then x else "", indent, value);
  }
}
