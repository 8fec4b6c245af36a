/** Parsing loses nothing: the text of what was built plus the text still to be read never changes. */
module ConfigLossless {
  import opened Text
  import opened ConfigTokens
  import opened ConfigTree
  import opened ConfigGrammar

  lemma {:induction false} CommentLoopText(parts: seq<CommentPart>, current: string, s: string)
    ensures var r := CommentLoop(parts, current, s);
            CommentPartsText(r.value) + r.rest == CommentPartsText(parts) + current + s
    decreases |s|
  {
    FlushCommentText(parts, current);
    if s != "" {
      var t := Lex(s);
      if t.kind == Placeholder {
        var flushed := FlushComment(parts, current);
        ConcatPush(CommentPartText, flushed, CommentPlaceholder(Inner(t.text)));
        CommentLoopText(flushed + [CommentPlaceholder(Inner(t.text))], "", After(s, t));
        InnerText(t.text, "{", "}");
        Regroup(CommentPartsText(flushed), t.text, s);
        Empties(CommentPartsText(flushed + [CommentPlaceholder(Inner(t.text))]));
      } else if !(t.kind == Whitespace && '\n' in t.text) {
        CommentLoopText(parts, current + t.text, After(s, t));
        Associate(CommentPartsText(parts), current, t.text);
        Regroup(CommentPartsText(parts) + current, t.text, s);
      }
    }
  }

  lemma InnerText(text: string, open: string, close: string)
    requires |text| >= 2 && |open| == |close| == 1 && text[0] == open[0] && text[|text| - 1] == close[0]
    ensures open + Inner(text) + close == text
  {
  }

  lemma Empties(s: string)
    ensures s + "" == s && "" + s == s
  {
  }

  lemma FlushCommentText(parts: seq<CommentPart>, current: string)
    ensures CommentPartsText(FlushComment(parts, current)) == CommentPartsText(parts) + current
  {
    ConcatPush(CommentPartText, parts, CommentText(current));
  }

  lemma ParseCommentText(s: string)
    requires s != ""
    ensures CommentPartsText(ParseComment(s).value) + ParseComment(s).rest == s
  {
    CommentLoopText([], Lex(s).text, After(s, Lex(s)));
    assert CommentPartsText([]) == "";
    Regroup("", Lex(s).text, s);
    Empties(s);
  }

  /** A rendering of pieces that shows entries and spaces as they are. */
  ghost predicate Faithful(f: Piece -> string) {
    forall t: string :: f(Entry(t)) == t && f(Space(t)) == t
  }

  /** What a value state stands for, rendered piece by piece. */
  function StateText(f: Piece -> string, st: ValueState): string {
    Render(f, st.lines) + Concat(f, st.line) + st.entry
  }

  lemma FlushEntryText(f: Piece -> string, line: Line, entry: string)
    requires Faithful(f)
    ensures Concat(f, FlushEntry(line, entry)) == Concat(f, line) + entry
  {
    ConcatPush(f, line, Entry(entry));
  }

  lemma {:induction false} SplitEntryText(f: Piece -> string, st: ValueState)
    requires Faithful(f)
    ensures StateText(f, SplitEntry(st)) == StateText(f, st)
    decreases |st.entry|
  {
    var n := LineLength(st.entry);
    if n < |st.entry| {
      var line := st.line + [Entry(st.entry[..n + 1])];
      var next := ValueState(st.lines + [line], [], st.entry[n + 1..], st.balance);
      SplitEntryText(f, next);
      SplitOnceText(f, st, n + 1);
    }
  }

  lemma SplitOnceText(f: Piece -> string, st: ValueState, n: nat)
    requires Faithful(f) && n <= |st.entry|
    ensures
      var line := st.line + [Entry(st.entry[..n])];
      StateText(f, ValueState(st.lines + [line], [], st.entry[n..], st.balance)) == StateText(f, st)
  {
    var entry := st.entry[..n];
    ConcatPush(f, st.line, Entry(entry));
    RenderPush(f, st.lines, st.line + [Entry(entry)]);
    SplitRegroup(Render(f, st.lines), Concat(f, st.line), st.entry, n);
  }

  lemma SplitRegroup(a: string, b: string, e: string, n: nat)
    requires n <= |e|
    ensures a + (b + e[..n]) + "" + e[n..] == a + b + e
  {
    assert e == e[..n] + e[n..];
  }

  lemma AddSpaceText(f: Piece -> string, st: ValueState, text: string)
    requires Faithful(f)
    ensures StateText(f, AddSpace(st, text)) == StateText(f, st) + text
  {
    if st.lines == [] && st.line == [] && st.entry == "" {
      FirstSpaceText(f, st, text);
      SplitEntryText(f, st.(line := [Space(text)]));
    } else {
      Associate(Render(f, st.lines) + Concat(f, st.line), st.entry, text);
      SplitEntryText(f, st.(entry := st.entry + text, balance := ScanBalance(st.balance, text)));
    }
  }

  lemma FirstSpaceText(f: Piece -> string, st: ValueState, text: string)
    requires Faithful(f) && st.lines == [] && st.line == [] && st.entry == ""
    ensures StateText(f, st.(line := [Space(text)])) == StateText(f, st) + text
  {
    ConcatOne(f, Space(text));
  }

  lemma AddPieceText(f: Piece -> string, st: ValueState, piece: Piece)
    requires Faithful(f)
    ensures StateText(f, AddPiece(st, piece)) == StateText(f, st) + f(piece)
  {
    FlushEntryText(f, st.line, st.entry);
    ConcatPush(f, FlushEntry(st.line, st.entry), piece);
  }

  /** Every step moves text from the rest into the state; only a comment may be rendered as something else. */
  lemma ValueStepText(f: Piece -> string, st: ValueState, s: string, asIs: bool)
    requires s != "" && ValueStep(st, s, asIs).Some?
    requires Faithful(f) && forall name :: f(Slot(name)) == "{" + name + "}"
    ensures var r := ValueStep(st, s, asIs).value;
            if !asIs && Lex(s).kind == Comment then
              var c := ParseComment(s);
              StateText(f, r.value) == StateText(f, st) + f(Remark(c.value)) && r.rest == c.rest
            else StateText(f, r.value) + r.rest == StateText(f, st) + s
  {
    var t := Lex(s);
    if t.kind == Whitespace {
      AddSpaceText(f, st, TakenSpace(t.text));
      Regroup(StateText(f, st), TakenSpace(t.text), s);
    } else if !asIs && t.kind == Comment {
      AddPieceText(f, st, Remark(ParseComment(s).value));
    } else if !asIs && t.kind == Placeholder {
      AddPieceText(f, st, Slot(Inner(t.text)));
      InnerText(t.text, "{", "}");
      Regroup(StateText(f, st), t.text, s);
    } else {
      Associate(Render(f, st.lines) + Concat(f, st.line), st.entry, t.text);
      Regroup(StateText(f, st), t.text, s);
    }
  }

  lemma FinishValueText(f: Piece -> string, st: ValueState)
    requires Faithful(f)
    ensures Render(f, FinishValue(st)) == StateText(f, st)
  {
    FlushEntryText(f, st.line, st.entry);
    RenderPush(f, st.lines, FlushEntry(st.line, st.entry));
  }

  lemma {:induction false} ValueLoopText(st: ValueState, s: string, asIs: bool)
    ensures var r := ValueLoop(st, s, asIs); LinesText(r.value) + r.rest == StateText(PieceText, st) + s
    decreases |s|
  {
    if s == "" || ValueStep(st, s, asIs).None? {
      FinishValueText(PieceText, st);
    } else {
      ValueStepText(PieceText, st, s, asIs);
      if !asIs && Lex(s).kind == Comment {
        var c := ParseComment(s);
        ParseCommentText(s);
        Associate(StateText(PieceText, st), CommentPartsText(c.value), c.rest);
      }
      var next := ValueStep(st, s, asIs).value;
      ValueLoopText(next.value, next.rest, asIs);
    }
  }

  lemma OptionText(s: string)
    requires s != "" && ParseOption(s).Success?
    ensures ItemText(ParseOption(s).value) + ParseOption(s).rest == s
  {
    var r1 := After(s, Lex(s));
    var trailing := TrailingSpace(r1);
    var r2 := r1[|trailing|..];
    var v := ParseValue(After(r2, Lex(r2)), "gcode" <= Lex(s).text);
    ValueLoopText(EMPTY_VALUE, After(r2, Lex(r2)), "gcode" <= Lex(s).text);
    assert StateText(PieceText, EMPTY_VALUE) == "";
    OptionRegroup(Lex(s).text, trailing, Lex(r2).text, LinesText(v.value), v.rest, s, r1, r2);
  }

  lemma OptionRegroup(name: string, trailing: string, op: string, value: string, rest: string, s: string, r1: string,
                      r2: string)
    requires name <= s && r1 == s[|name|..]
    requires trailing <= r1 && r2 == r1[|trailing|..]
    requires op <= r2 && value + rest == r2[|op|..]
    ensures name + trailing + op + value + rest == s
  {
    Regroup("", name, s);
    Regroup(name, trailing, r1);
    Regroup(name + trailing, op, r2);
    Associate(name + trailing + op, value, rest);
  }

  // ------------------------------------------------------------------------------------ marker-free texts

  /** No line of the text is a parse-error marker. */
  ghost predicate MarkerFree(s: string)
    decreases |s|
  {
    var n := LineLength(s);
    !IsMarkerLine(s[..n]) && (n < |s| ==> MarkerFree(s[n + 1..]))
  }

  /** The same for every line but the first, which may be a remainder of a line. */
  ghost predicate TailMarkerFree(s: string) {
    LineLength(s) < |s| ==> MarkerFree(s[LineLength(s) + 1..])
  }

  lemma LineLengthOfSuffix(s: string, k: nat)
    requires k <= LineLength(s)
    ensures LineLength(s[k..]) == LineLength(s) - k
  {
    LineLengthIs(s);
    LineLengthOnly(s[k..], LineLength(s) - k);
  }

  /** Dropping text from the front keeps the tail free of markers. */
  lemma {:induction false} SuffixTailMarkerFree(s: string, k: nat)
    requires TailMarkerFree(s) && k <= |s|
    ensures TailMarkerFree(s[k..])
    decreases |s|
  {
    var n := LineLength(s);
    if k <= n {
      LineLengthOfSuffix(s, k);
      assert n < |s| ==> s[k..][n - k + 1..] == s[n + 1..];
    } else {
      var r := s[n + 1..];
      SuffixTailMarkerFree(r, k - n - 1);
      assert r[k - n - 1..] == s[k..];
    }
  }

  lemma {:induction false} TakeLines(s: string, k: nat)
    requires k <= |s|
    requires MarkerFree(s)
    requires k == |s| || k == 0 || s[k - 1] == '\n'
    ensures MarkerFree(s[..k])
    decreases |s|
  {
    var n := LineLength(s);
    if k == |s| {
      assert s[..k] == s;
    } else if k == 0 {
      assert LStrip("") == "";
    } else {
      LineLengthIs(s);
      LastCharacter(s, k, n + 1);
      TakeLines(s[n + 1..], k - n - 1);
      LineLengthOfPrefix(s, k);
      PrependLine(s, k);
    }
  }

  lemma LineLengthOfPrefix(s: string, k: nat)
    requires LineLength(s) < k <= |s|
    ensures LineLength(s[..k]) == LineLength(s)
  {
    LineLengthIs(s);
    LineLengthOnly(s[..k], LineLength(s));
  }

  lemma {:induction false} NothingToDrop(s: string)
    requires MarkerFree(s)
    ensures DropMarkerLines(Lines(s)) == Lines(s)
    decreases |s|
  {
    var n := LineLength(s);
    if n < |s| {
      NothingToDrop(s[n + 1..]);
      assert Lines(s) == [s[..n]] + Lines(s[n + 1..]);
      assert Lines(s)[1..] == Lines(s[n + 1..]);
    } else {
      assert s[..n] == s && Lines(s) == [s] && Lines(s)[1..] == [];
    }
  }

  lemma {:induction false} UntilEndsAtLine(resumes: string -> bool, s: string)
    ensures var n := LinesUntil(resumes, s); n == |s| || n == 0 || s[n - 1] == '\n'
    decreases |s|
  {
    LineLengthIs(s);
    if s != "" && !resumes(s[..LineLength(s)]) {
      UntilEndsAtLine(resumes, s[NextLine(s)..]);
    }
  }

  /** Where a construct can fail: its first token is a word, an operator or an unknown character. */
  ghost predicate FailsAt(s: string) {
    s != "" && !IsSpace(s[0]) && s[0] != '#'
  }

  /** The text skipped by a recovery that starts at a character no marker line can start with. */
  lemma SkippedMarkerFree(s: string, toEof: bool)
    requires FailsAt(s) && TailMarkerFree(s)
    ensures MarkerFree(s[..ResyncLength(s, toEof)])
  {
    FirstLineIsNoMarker(s);
    ResyncSplit(s, toEof);
    WholeLinesMarkerFree(s, ResyncLength(s, toEof));
  }

  lemma WholeLinesMarkerFree(s: string, k: nat)
    requires TailMarkerFree(s) && !IsMarkerLine(s[..LineLength(s)])
    requires EndsAtLine(s, k)
    ensures MarkerFree(s[..k])
  {
    var n := LineLength(s);
    if n == |s| {
      assert s[..k] == s;
    } else {
      LinesAfterFirst(s, k);
      LineLengthOfPrefix(s, k);
      PrependLine(s, k);
    }
  }

  lemma LastCharacter(s: string, k: nat, n: nat)
    requires n <= k <= |s|
    ensures k > n ==> s[n..][k - n - 1] == s[k - 1]
  {
  }

  lemma LinesAfterFirst(s: string, k: nat)
    requires LineLength(s) < |s| && TailMarkerFree(s) && EndsAtLine(s, k)
    ensures LineLength(s) < k <= |s|
    ensures MarkerFree(s[LineLength(s) + 1..][..k - LineLength(s) - 1])
  {
    LastCharacter(s, k, LineLength(s) + 1);
    TakeLines(s[LineLength(s) + 1..], k - LineLength(s) - 1);
  }

  /** `k` is the end of the first line or of a later one. */
  ghost predicate EndsAtLine(s: string, k: nat) {
    LineLength(s) <= k <= |s| && (k == |s| || (k > LineLength(s) && s[k - 1] == '\n'))
  }

  lemma FirstLineIsNoMarker(s: string)
    requires FailsAt(s)
    ensures !IsMarkerLine(s[..LineLength(s)])
  {
    var line := s[..LineLength(s)];
    assert s[0] != '\n';
    assert line[0] == s[0];
    assert SpaceLength(line) == 0;
    assert LStrip(line) == line;
  }

  lemma ResyncSplit(s: string, toEof: bool)
    ensures EndsAtLine(s, ResyncLength(s, toEof))
  {
    UntilEndsAtLine(IsResyncLine, s[NextLine(s)..]);
    SplitAfterLine(s, LinesUntil(IsResyncLine, s[NextLine(s)..]));
  }

  lemma SplitAfterLine(s: string, j: nat)
    requires j <= |s| - NextLine(s)
    requires j == |s[NextLine(s)..]| || j == 0 || s[NextLine(s)..][j - 1] == '\n'
    ensures EndsAtLine(s, NextLine(s) + j) && EndsAtLine(s, |s|)
  {
    LineLengthIs(s);
    assert j > 0 ==> s[NextLine(s)..][j - 1] == s[NextLine(s) + j - 1];
  }

  lemma PrependLine(s: string, k: nat)
    requires LineLength(s) < k <= |s|
    requires LineLength(s[..k]) == LineLength(s)
    requires !IsMarkerLine(s[..LineLength(s)])
    requires MarkerFree(s[LineLength(s) + 1..][..k - LineLength(s) - 1])
    ensures MarkerFree(s[..k])
  {
    DropOfTake(s, k, LineLength(s));
    FirstAndRest(s[..k]);
  }

  lemma DropOfTake(s: string, k: nat, n: nat)
    requires n < k <= |s|
    ensures s[..k][n + 1..] == s[n + 1..][..k - n - 1] && s[..k][..n] == s[..n]
  {
  }

  lemma FirstAndRest(p: string)
    requires LineLength(p) < |p| && !IsMarkerLine(p[..LineLength(p)]) && MarkerFree(p[LineLength(p) + 1..])
    ensures MarkerFree(p)
  {
  }

  lemma WithoutMarkersSame(text: string)
    requires MarkerFree(text)
    ensures WithoutMarkers(text) == text
  {
    NothingToDrop(text);
    JoinOfLines(text);
  }

  lemma RecoverText(s: string, reason: string, recoveries: nat)
    requires FailsAt(s) && TailMarkerFree(s)
    ensures var r := Recover(s, reason, recoveries, false);
            ItemsText(r.value) + r.rest == s && TailMarkerFree(r.rest)
  {
    var n := ResyncLength(s, recoveries + 1 > MAX_RECOVERIES);
    SkippedMarkerFree(s, recoveries + 1 > MAX_RECOVERIES);
    WithoutMarkersSame(s[..n]);
    SuffixTailMarkerFree(s, n);
    ConcatOne(ItemText, UnparsedItem(s[..n], reason));
    assert s == s[..n] + s[n..];
  }

  // --------------------------------------------------------------------------------- sections and documents

  /** The text after a prefix that was consumed whole: what every parsing step hands to the next one. */
  lemma SuffixOf(s: string, taken: string, rest: string)
    requires TailMarkerFree(s) && taken + rest == s
    ensures TailMarkerFree(rest)
  {
    SuffixTailMarkerFree(s, |taken|);
    assert s[|taken|..] == rest;
  }

  lemma SimpleItemText(t: Token)
    requires t.kind == Placeholder ==> |t.text| >= 2 && t.text[0] == '{' && t.text[|t.text| - 1] == '}'
    requires SimpleItem(t).Some?
    ensures ItemText(SimpleItem(t).value) == t.text
  {
    if t.kind == Placeholder {
      BracesText(t.text);
    }
  }

  lemma BracesText(text: string)
    requires |text| >= 2 && text[0] == '{' && text[|text| - 1] == '}'
    ensures "{" + Inner(text) + "}" == text
  {
    InnerText(text, "{", "}");
  }

  lemma Rejoin(t: string, s: string)
    requires t <= s
    ensures t + s[|t|..] == s
  {
  }

  lemma SectionStepText(s: string, recoveries: nat)
    requires s != "" && TailMarkerFree(s)
    ensures var r := SectionStep(s, recoveries, false);
            ItemsText(r.value) + r.rest == s && TailMarkerFree(r.rest)
  {
    var t := Lex(s);
    var r := SectionStep(s, recoveries, false);
    if SimpleItem(t).Some? {
      SimpleItemText(t);
      Rejoin(t.text, s);
      ConcatOne(ItemText, SimpleItem(t).value);
      SuffixOf(s, ItemsText(r.value), r.rest);
    } else if t.kind == Comment {
      ParseCommentText(s);
      ConcatOne(ItemText, CommentItem(ParseComment(s).value));
      SuffixOf(s, ItemsText(r.value), r.rest);
    } else if t.kind == Word && ParseOption(s).Success? {
      OptionText(s);
      ConcatOne(ItemText, ParseOption(s).value);
      SuffixOf(s, ItemsText(r.value), r.rest);
    } else if t.kind == Word {
      RecoverText(s, ParseOption(s).reason, recoveries);
    } else {
      RecoverText(s, UnexpectedToken(t), recoveries);
    }
  }

  lemma {:induction false} SectionLoopText(body: seq<Item>, s: string, recoveries: nat)
    requires TailMarkerFree(s)
    ensures var r := SectionLoop(body, s, recoveries, false);
            ItemsText(r.value) + r.rest == ItemsText(body) + s && TailMarkerFree(r.rest)
    decreases |s|
  {
    if !SectionEnds(s) {
      var step := SectionStep(s, recoveries, false);
      SectionStepText(s, recoveries);
      SectionStepProgress(s, recoveries, false);
      SectionLoopText(body + step.value, step.rest, step.recoveries);
      ConcatAppend(ItemText, body, step.value);
      Associate(ItemsText(body), ItemsText(step.value), step.rest);
    }
  }

  lemma ParseSectionText(s: string, recoveries: nat)
    requires s != "" && Lex(s).kind == Section && TailMarkerFree(s)
    ensures var r := ParseSection(s, recoveries, false);
            BlockText(r.value) + r.rest == s && TailMarkerFree(r.rest)
  {
    var t := Lex(s);
    SuffixTailMarkerFree(s, |t.text|);
    HeaderedText(t.text, After(s, t), s, recoveries);
  }

  lemma HeaderedText(header: string, after: string, s: string, recoveries: nat)
    requires |header| >= 2 && header[0] == '[' && header[|header| - 1] == ']'
    requires header <= s && after == s[|header|..] && TailMarkerFree(after)
    ensures var r := SectionLoop([], after, recoveries, false);
            BlockText(SectionBlock(Inner(header), r.value)) + r.rest == s && TailMarkerFree(r.rest)
  {
    var r := SectionLoop([], after, recoveries, false);
    SectionLoopText([], after, recoveries);
    BracketsText(header);
    AfterHeader(header, ItemsText(r.value), r.rest, after, s);
  }

  lemma BracketsText(text: string)
    requires |text| >= 2 && text[0] == '[' && text[|text| - 1] == ']'
    ensures "[" + Inner(text) + "]" == text
  {
    InnerText(text, "[", "]");
  }

  lemma AfterHeader(header: string, items: string, rest: string, after: string, s: string)
    requires items + rest == "" + after && header <= s && after == s[|header|..]
    ensures header + items + rest == s
  {
    Associate(header, items, rest);
    Empties(after);
  }

  lemma {:induction false} AsBlocksText(items: seq<Item>)
    ensures BlocksText(AsBlocks(items)) == ItemsText(items)
  {
    if items != [] {
      AsBlocksText(items[1..]);
      assert AsBlocks(items)[1..] == AsBlocks(items[1..]);
    }
  }

  lemma {:induction false} AsTopsText(blocks: seq<Block>)
    ensures Write(AsTops(blocks)) == BlocksText(blocks)
  {
    if blocks != [] {
      AsTopsText(blocks[1..]);
      assert AsTops(blocks)[1..] == AsTops(blocks[1..]);
    }
  }

  lemma BlockStepText(s: string, recoveries: nat)
    requires s != "" && TailMarkerFree(s)
    ensures var r := BlockStep(s, recoveries, false);
            BlocksText(r.value) + r.rest == s && TailMarkerFree(r.rest)
  {
    var t := Lex(s);
    var r := BlockStep(s, recoveries, false);
    if t.kind == Section {
      ParseSectionText(s, recoveries);
      ConcatOne(BlockText, ParseSection(s, recoveries, false).value);
    } else if SimpleItem(t).Some? {
      SimpleItemText(t);
      Rejoin(t.text, s);
      ConcatOne(BlockText, ItemBlock(SimpleItem(t).value));
      SuffixOf(s, BlocksText(r.value), r.rest);
    } else if t.kind == Comment {
      ParseCommentText(s);
      ConcatOne(BlockText, ItemBlock(CommentItem(ParseComment(s).value)));
      SuffixOf(s, BlocksText(r.value), r.rest);
    } else {
      RecoverText(s, UnexpectedToken(t), recoveries);
      AsBlocksText(Recover(s, UnexpectedToken(t), recoveries, false).value);
    }
  }

  lemma {:induction false} ExclusionLoopText(body: seq<Block>, s: string, recoveries: nat)
    requires TailMarkerFree(s)
    ensures var r := ExclusionLoop(body, s, recoveries, false);
            r.rest == "" && BlocksText(r.value) == BlocksText(body) + s
    decreases |s|
  {
    if s != "" {
      var step := BlockStep(s, recoveries, false);
      BlockStepText(s, recoveries);
      BlockStepProgress(s, recoveries, false);
      ExclusionLoopText(body + step.value, step.rest, step.recoveries);
      ConcatAppend(BlockText, body, step.value);
      Associate(BlocksText(body), BlocksText(step.value), step.rest);
    }
  }

  lemma {:induction false} DocumentLoopText(body: Document, s: string, recoveries: nat, origin: Option<string>)
    requires TailMarkerFree(s)
    ensures var r := DocumentLoop(body, s, recoveries, false, origin);
            r.rest == "" && Write(r.value) == Write(body) + s
    decreases |s|
  {
    if s != "" {
      if IsMagicComment(Lex(s)) {
        var c := ParseComment(s);
        var first := ItemBlock(CommentItem(c.value));
        ParseCommentText(s);
        SuffixOf(s, CommentPartsText(c.value), c.rest);
        ConcatOne(BlockText, first);
        ExclusionLoopText([first], c.rest, recoveries);
        ConcatPush(TopText, body, Exclusion(ExclusionLoop([first], c.rest, recoveries, false).value, origin));
      } else {
        var step := BlockStep(s, recoveries, false);
        BlockStepText(s, recoveries);
        BlockStepProgress(s, recoveries, false);
        DocumentLoopText(body + AsTops(step.value), step.rest, step.recoveries, origin);
        AsTopsText(step.value);
        ConcatAppend(TopText, body, AsTops(step.value));
        Associate(Write(body), BlocksText(step.value), step.rest);
      }
    }
  }

  lemma LiftedText(top: Top)
    ensures Write(Lifted(top)) == TopText(top)
  {
    if top.Plain? && top.block.SectionBlock? {
      var body := top.block.body;
      var n := SectionKeeps(body);
      var section := Plain(SectionBlock(top.block.name, body[..n]));
      AsBlocksText(body[n..]);
      AsTopsText(AsBlocks(body[n..]));
      ConcatAppend(TopText, [section], AsTops(AsBlocks(body[n..])));
      ConcatOne(TopText, section);
      ConcatAppend(ItemText, body[..n], body[n..]);
      assert body == body[..n] + body[n..];
      Associate("[" + top.block.name + "]", ItemsText(body[..n]), ItemsText(body[n..]));
    } else {
      ConcatOne(TopText, top);
    }
  }

  /** Moving the trailing items of sections one level up changes no text. */
  lemma {:induction false} PostProcessText(doc: Document)
    ensures Write(PostProcess(doc)) == Write(doc)
  {
    if doc != [] {
      PostProcessText(doc[1..]);
      LiftedText(doc[0]);
      ConcatAppend(TopText, Lifted(doc[0]), PostProcess(doc[1..]));
    }
  }

  /** For every text without a marker line, well formed or not, writing the parsed document gives the text back. */
  lemma Lossless(buf: string, origin: Option<string>)
    requires MarkerFree(buf)
    ensures Write(Parse(buf, false, origin)) == buf
  {
    DocumentLoopText([], buf, 0, origin);
    PostProcessText(DocumentLoop([], buf, 0, false, origin).value);
    Empties(buf);
  }
}
