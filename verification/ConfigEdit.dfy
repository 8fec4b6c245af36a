/** Setting an option: where the value is written, what survives around it, and what reading it back gives. */
module ConfigEdit {
  import opened Text
  import opened ConfigTokens
  import opened ConfigTree
  import opened ConfigLookup
  import opened ConfigValues
  import G = ConfigGrammar

  /** First piece of a line, from the `j`-th on, that holds value text. */
  function InkFrom(line: Line, j: nat): (r: Option<nat>)
    requires j <= |line|
    ensures r.Some? ==> j <= r.value < |line| && IsInk(line[r.value])
    decreases |line| - j
  {
    if j == |line| then None else if IsInk(line[j]) then Some(j) else InkFrom(line, j + 1)
  }

  function FirstInk(line: Line): (r: Option<nat>)
    ensures r.Some? ==> r.value < |line| && IsInk(line[r.value])
  {
    InkFrom(line, 0)
  }

  /** The first line, from the `i`-th on, that holds value text, and the piece where it starts. */
  function TargetFrom(lines: seq<Line>, i: nat): (r: Option<(nat, nat)>)
    requires i <= |lines|
    ensures r.Some? ==> i <= r.value.0 < |lines| && FirstInk(lines[r.value.0]) == Some(r.value.1)
    decreases |lines| - i
  {
    if i == |lines| then None
    else if FirstInk(lines[i]).Some? then Some((i, FirstInk(lines[i]).value))
    else TargetFrom(lines, i + 1)
  }

  /** `_find_value_node`: the line and the piece where the value text starts. */
  function FindTarget(lines: seq<Line>): (r: Option<(nat, nat)>)
    ensures r.Some? ==> r.value.0 < |lines| && FirstInk(lines[r.value.0]) == Some(r.value.1)
  {
    TargetFrom(lines, 0)
  }

  lemma {:induction false} InkFromIs(line: Line, j: nat)
    requires j <= |line|
    ensures var r := InkFrom(line, j);
            forall m | j <= m < (if r.Some? then r.value else |line|) :: !IsInk(line[m])
    decreases |line| - j
  {
    if j < |line| && !IsInk(line[j]) {
      InkFromIs(line, j + 1);
    }
  }

  /** No piece before the first one with value text has any. */
  lemma FirstInkIs(line: Line)
    ensures FirstInk(line).Some? ==> forall m | 0 <= m < FirstInk(line).value :: !IsInk(line[m])
    ensures FirstInk(line).None? ==> NoInkIn(line)
  {
    InkFromIs(line, 0);
  }

  lemma {:induction false} TargetFromIs(lines: seq<Line>, i: nat)
    requires i <= |lines|
    ensures var r := TargetFrom(lines, i);
            forall m | i <= m < (if r.Some? then r.value.0 else |lines|) :: FirstInk(lines[m]).None?
    decreases |lines| - i
  {
    if i < |lines| && FirstInk(lines[i]).None? {
      TargetFromIs(lines, i + 1);
    }
  }

  /** No line before the target has value text. */
  lemma FindTargetIs(lines: seq<Line>)
    ensures var r := FindTarget(lines);
            forall m | 0 <= m < (if r.Some? then r.value.0 else |lines|) :: FirstInk(lines[m]).None?
  {
    TargetFromIs(lines, 0);
  }

  function Indent(s: string): (r: string)
    ensures AllSpace(r)
  {
    BlankBefore(s);
    s[..BlankLength(s)]
  }

  /** The lines after the written one that do not start with value text. */
  function Retained(lines: seq<Line>): seq<Line> {
    if lines == [] then []
    else (if lines[0] != [] && IsInk(lines[0][0]) then [] else [lines[0]]) + Retained(lines[1..])
  }

  /** The first line with the value added, when no line holds value text. */
  function Headed(line: Line, value: string): Line {
    if line != [] && line[0].Remark? then [Entry(value)] + line else line + [Entry(value)]
  }

  /** Overwrites the value where it is. */
  function Rewrite(lines: seq<Line>, value: string): seq<Line>
    requires lines != []
  {
    match FindTarget(lines)
    case None =>
      [Headed(lines[0], value)] + lines[1..]
    case Some((i, j)) =>
      lines[..i] + [lines[i][j := Entry(Indent(lines[i][j].text) + value)]] + Retained(lines[i + 1..])
  }

  function NewLines(lines: seq<Line>, value: string): seq<Line> {
    if lines == [] then G.ParseValue(value, false).value else Rewrite(lines, value)
  }

  const DEFAULT_ASSIGN_OP := ":"

  function EditedBody(body: seq<Item>, option: string, value: string): seq<Item> {
    match FindOption(body, option)
    case Some(k) => body[k := body[k].(lines := NewLines(body[k].lines, value))]
    case None =>
      body + [OptionItem(option, "", DEFAULT_ASSIGN_OP, G.ParseValue(" " + value, false).value), SpaceItem("\n")]
  }

  /** `ConfigBuilder.set`; no result stands for the missing-section error. */
  function Set(doc: Document, section: string, option: string, value: Option<string>): Option<Document> {
    match FindSection(doc, section)
    case None => None
    case Some(r) =>
      var v := Strip(if value.Some? then value.value else "");
      Some(WithBody(doc, r, EditedBody(SectionAt(doc, r).body, option, v)))
  }

  // ------------------------------------------------------------------------------------- what is read back

  /** Nothing but layout survives around the written value: no placeholder and no other value text. */
  ghost predicate Replaceable(lines: seq<Line>) {
    match FindTarget(lines)
    case None => AllSpace(LinesValue(lines))
    case Some((i, j)) =>
      && AllSpace(LinesValue(lines[..i]))
      && AllSpace(LineValue(lines[i][..j])) && AllSpace(LineValue(lines[i][j + 1..]))
      && AllSpace(LinesValue(Retained(lines[i + 1..])))
  }

  /** What surrounds the written value, comments left out. */
  ghost function Leading(lines: seq<Line>): string
    requires lines != []
  {
    match FindTarget(lines)
    case None => if lines[0] != [] && lines[0][0].Remark? then "" else LineValue(lines[0])
    case Some((i, j)) => LinesValue(lines[..i]) + LineValue(lines[i][..j]) + Indent(lines[i][j].text)
  }

  ghost function Trailing(lines: seq<Line>): string
    requires lines != []
  {
    match FindTarget(lines)
    case None => (if lines[0] != [] && lines[0][0].Remark? then LineValue(lines[0]) else "") + LinesValue(lines[1..])
    case Some((i, j)) => LineValue(lines[i][j + 1..]) + LinesValue(Retained(lines[i + 1..]))
  }

  lemma LineValueSplit(line: Line, j: nat, p: Piece)
    requires j < |line|
    ensures LineValue(line[j := p]) == LineValue(line[..j]) + PieceValue(p) + LineValue(line[j + 1..])
  {
    assert line[j := p] == line[..j] + ([p] + line[j + 1..]);
    ConcatAppend(PieceValue, line[..j], [p] + line[j + 1..]);
    ConcatAppend(PieceValue, [p], line[j + 1..]);
    ConcatOne(PieceValue, p);
    Associate(LineValue(line[..j]), PieceValue(p), LineValue(line[j + 1..]));
  }

  lemma EntryFirst(line: Line, value: string)
    ensures LineValue([Entry(value)] + line) == value + LineValue(line)
  {
    assert ([Entry(value)] + line)[1..] == line;
  }

  lemma LayoutOnlyValue(lines: seq<Line>, value: string)
    requires lines != [] && FindTarget(lines).None?
    ensures LinesValue(Rewrite(lines, value)) == Leading(lines) + value + Trailing(lines)
  {
    HeadValue(Headed(lines[0], value), lines[1..]);
    HeadedValue(lines[0], value);
    var text, rest := LineValue(lines[0]), LinesValue(lines[1..]);
    if lines[0] != [] && lines[0][0].Remark? {
      ValueFirst(value, text, rest);
    } else {
      ValueLast(text, value, rest);
    }
  }

  lemma HeadedValue(line: Line, value: string)
    ensures LineValue(Headed(line, value)) ==
            if line != [] && line[0].Remark? then value + LineValue(line) else LineValue(line) + value
  {
    if line != [] && line[0].Remark? {
      EntryFirst(line, value);
    } else {
      ConcatPush(PieceValue, line, Entry(value));
    }
  }

  lemma ValueFirst(value: string, text: string, rest: string)
    ensures value + text + rest == "" + value + (text + rest)
  {
  }

  lemma ValueLast(text: string, value: string, rest: string)
    ensures text + value + rest == text + value + ("" + rest)
  {
  }

  lemma HeadValue(line: Line, lines: seq<Line>)
    ensures LinesValue([line] + lines) == LineValue(line) + LinesValue(lines)
  {
    assert ([line] + lines)[1..] == lines;
  }

  lemma TargetValue(lines: seq<Line>, value: string)
    requires FindTarget(lines).Some?
    ensures LinesValue(Rewrite(lines, value)) == Leading(lines) + value + Trailing(lines)
  {
    var (i, j) := FindTarget(lines).value;
    var p := Entry(Indent(lines[i][j].text) + value);
    LinesAroundValue(lines[..i], lines[i][j := p], Retained(lines[i + 1..]));
    LineValueSplit(lines[i], j, p);
    AroundTarget(LinesValue(lines[..i]), LineValue(lines[i][..j]), Indent(lines[i][j].text), value,
                 LineValue(lines[i][j + 1..]), LinesValue(Retained(lines[i + 1..])),
                 LineValue(lines[i][j := p]), LinesValue(Rewrite(lines, value)), Leading(lines), Trailing(lines));
  }

  lemma AroundTarget(a: string, b: string, c: string, d: string, e: string, f: string, line: string, all: string,
                     leading: string, trailing: string)
    requires line == b + (c + d) + e && all == a + line + f && leading == a + b + c && trailing == e + f
    ensures all == leading + d + trailing
  {
    Regroup5(a, b, c, d, e, f);
  }

  lemma LinesAroundValue(before: seq<Line>, line: Line, after: seq<Line>)
    ensures LinesValue(before + [line] + after) == LinesValue(before) + LineValue(line) + LinesValue(after)
  {
    RenderAppend(PieceValue, before + [line], after);
    RenderPush(PieceValue, before, line);
  }

  lemma RewriteValue(lines: seq<Line>, value: string)
    requires lines != []
    ensures LinesValue(Rewrite(lines, value)) == Leading(lines) + value + Trailing(lines)
  {
    if FindTarget(lines).None? {
      LayoutOnlyValue(lines, value);
    } else {
      TargetValue(lines, value);
    }
  }

  lemma Regroup5(a: string, b: string, c: string, d: string, e: string, f: string)
    ensures a + (b + (c + d) + e) + f == (a + b + c) + d + (e + f)
  {
  }

  lemma AllSpaceParts(a: string, b: string)
    ensures AllSpace(a + b) <==> AllSpace(a) && AllSpace(b)
  {
    NoInk(a);
    NoInk(b);
    NoInk(a + b);
    InkAppend(a, b);
  }

  lemma ReplaceableAround(lines: seq<Line>)
    requires lines != []
    ensures Replaceable(lines) <==> AllSpace(Leading(lines)) && AllSpace(Trailing(lines))
  {
    if FindTarget(lines).None? {
      AllSpaceParts(LineValue(lines[0]), LinesValue(lines[1..]));
      AllSpaceParts("", LinesValue(lines[1..]));
    } else {
      var (i, j) := FindTarget(lines).value;
      AllSpaceAround(Leading(lines), LinesValue(lines[..i]), LineValue(lines[i][..j]), Indent(lines[i][j].text),
                     Trailing(lines), LineValue(lines[i][j + 1..]), LinesValue(Retained(lines[i + 1..])));
    }
  }

  lemma AllSpaceAround(leading: string, a: string, b: string, c: string, trailing: string, e: string, f: string)
    requires leading == a + b + c && trailing == e + f && AllSpace(c)
    ensures AllSpace(a) && AllSpace(b) && AllSpace(e) && AllSpace(f) <==> AllSpace(leading) && AllSpace(trailing)
  {
    AllSpaceThree(a, b, c);
    AllSpaceParts(e, f);
  }

  lemma AllSpaceThree(a: string, b: string, c: string)
    ensures AllSpace(a + b + c) <==> AllSpace(a) && AllSpace(b) && AllSpace(c)
  {
    AllSpaceParts(a + b, c);
    AllSpaceParts(a, b);
  }

  /** Overwriting a value reads back as the new value exactly when only layout survives around it. */
  lemma RewriteReadsBack(lines: seq<Line>, value: string)
    requires lines != [] && Stripped(value)
    ensures Strip(LinesValue(Rewrite(lines, value))) == value <==> Replaceable(lines)
  {
    var a, b := Leading(lines), Trailing(lines);
    RewriteValue(lines, value);
    ReplaceableAround(lines);
    if AllSpace(a) && AllSpace(b) {
      StripPadded(a, value, b);
    } else {
      StripInk(a + value + b);
      InkAppend(a + value, b);
      InkAppend(a, value);
      NoInk(a);
      NoInk(b);
    }
  }

  // --------------------------------------------------------------------- values without placeholders

  ghost predicate NoInkIn(line: Line) {
    forall i | 0 <= i < |line| :: !IsInk(line[i])
  }

  ghost predicate AllSlotFree(lines: seq<Line>) {
    forall i | 0 <= i < |lines| :: SlotFree(lines[i])
  }

  lemma {:induction false} BlankLine(line: Line)
    requires SpacesBlank(line) && SlotFree(line) && NoInkIn(line)
    ensures AllSpace(LineValue(line))
  {
    if line != [] {
      BlankLine(line[1..]);
      AllSpaceParts(PieceValue(line[0]), LineValue(line[1..]));
      assert AllSpace(PieceValue(line[0]));
    }
  }

  lemma {:induction false} BlankLines(lines: seq<Line>)
    requires forall i | 0 <= i < |lines| :: SpacesBlank(lines[i]) && SlotFree(lines[i]) && NoInkIn(lines[i])
    ensures AllSpace(LinesValue(lines))
  {
    if lines != [] {
      BlankLine(lines[0]);
      BlankLines(lines[1..]);
      AllSpaceParts(LineValue(lines[0]), LinesValue(lines[1..]));
    }
  }

  lemma {:induction false} RetainedAre(lines: seq<Line>)
    ensures forall i | 0 <= i < |Retained(lines)| ::
              var line := Retained(lines)[i]; line in lines && (line == [] || !IsInk(line[0]))
  {
    if lines != [] {
      RetainedAre(lines[1..]);
    }
  }

  /** Without a placeholder a parsed value is replaceable. */
  lemma GoodReplaceable(lines: seq<Line>)
    requires lines != [] && GoodLines(lines) && AllSlotFree(lines)
    ensures Replaceable(lines)
  {
    FindTargetIs(lines);
    match FindTarget(lines)
    case None =>
      forall m | 0 <= m < |lines| ensures SpacesBlank(lines[m]) && SlotFree(lines[m]) && NoInkIn(lines[m]) {
        FirstInkIs(lines[m]);
        assert GoodLine(lines[m], m == 0);
      }
      BlankLines(lines);
    case Some((i, j)) =>
      BlankLinesBefore(lines, i);
      assert GoodLine(lines[i], i == 0);
      BlankAround(lines[i], j);
      BlankRetained(lines, i + 1);
  }

  lemma BlankLinesBefore(lines: seq<Line>, i: nat)
    requires i <= |lines| && GoodLines(lines) && AllSlotFree(lines)
    requires forall m | 0 <= m < i :: FirstInk(lines[m]).None?
    ensures AllSpace(LinesValue(lines[..i]))
  {
    var before := lines[..i];
    forall m | 0 <= m < i ensures SpacesBlank(before[m]) && SlotFree(before[m]) && NoInkIn(before[m]) {
      FirstInkIs(lines[m]);
      assert GoodLine(lines[m], m == 0);
    }
    BlankLines(before);
  }

  lemma BlankAround(line: Line, j: nat)
    requires FirstInk(line) == Some(j) && SpacesBlank(line) && SlotFree(line) && OneInk(line)
    ensures AllSpace(LineValue(line[..j])) && AllSpace(LineValue(line[j + 1..]))
  {
    FirstInkIs(line);
    BlankLine(line[..j]);
    var after := line[j + 1..];
    forall m | 0 <= m < |after| ensures !IsInk(after[m]) && !after[m].Slot? {
      assert after[m] == line[j + 1 + m];
    }
    BlankLine(after);
  }

  lemma BlankRetained(lines: seq<Line>, k: nat)
    requires 0 < k <= |lines| && GoodLines(lines) && AllSlotFree(lines)
    ensures AllSpace(LinesValue(Retained(lines[k..])))
  {
    var kept := Retained(lines[k..]);
    RetainedAre(lines[k..]);
    forall m | 0 <= m < |kept| ensures SpacesBlank(kept[m]) && SlotFree(kept[m]) && NoInkIn(kept[m]) {
      var n :| 0 <= n < |lines[k..]| && lines[k..][n] == kept[m];
      assert GoodLine(lines[k + n], false);
    }
    BlankLines(kept);
  }

  lemma RetainedGood(lines: seq<Line>, k: nat)
    requires GoodLines(lines) && k > 0 && k <= |lines|
    ensures forall i | 0 <= i < |Retained(lines[k..])| :: GoodLine(Retained(lines[k..])[i], false)
    ensures AllSlotFree(lines) ==> AllSlotFree(Retained(lines[k..]))
  {
    RetainedAre(lines[k..]);
    forall i | 0 <= i < |Retained(lines[k..])|
      ensures GoodLine(Retained(lines[k..])[i], false)
      ensures AllSlotFree(lines) ==> SlotFree(Retained(lines[k..])[i])
    {
      var n :| 0 <= n < |lines[k..]| && lines[k..][n] == Retained(lines[k..])[i];
      assert lines[k..][n] == lines[k + n];
    }
  }

  /** Overwriting keeps the layout well formed and adds no placeholder. */
  lemma RewriteGood(lines: seq<Line>, value: string)
    requires lines != [] && GoodLines(lines)
    ensures GoodLines(Rewrite(lines, value)) && Rewrite(lines, value) != []
    ensures AllSlotFree(lines) ==> AllSlotFree(Rewrite(lines, value))
  {
    if FindTarget(lines).None? {
      LayoutOnlyGood(lines, value);
    } else {
      TargetGood(lines, value);
    }
  }

  lemma HeadedShape(lines: seq<Line>, value: string, rewritten: seq<Line>)
    requires lines != [] && rewritten == [Headed(lines[0], value)] + lines[1..]
    ensures |rewritten| == |lines| && rewritten[0] == Headed(lines[0], value)
    ensures forall i | 1 <= i < |lines| :: rewritten[i] == lines[i]
  {
  }

  lemma SameTailGood(lines: seq<Line>, rewritten: seq<Line>)
    requires |rewritten| == |lines| > 0 && GoodLines(lines) && GoodLine(rewritten[0], true)
    requires forall i | 1 <= i < |lines| :: rewritten[i] == lines[i]
    ensures GoodLines(rewritten)
    ensures AllSlotFree(lines) && SlotFree(rewritten[0]) ==> AllSlotFree(rewritten)
  {
  }

  lemma LayoutOnlyGood(lines: seq<Line>, value: string)
    requires lines != [] && GoodLines(lines) && FindTarget(lines).None?
    ensures GoodLines(Rewrite(lines, value)) && Rewrite(lines, value) != []
    ensures AllSlotFree(lines) ==> AllSlotFree(Rewrite(lines, value))
  {
    var rewritten := Rewrite(lines, value);
    assert GoodLine(lines[0], true);
    FindTargetIs(lines);
    LayoutLineGood(lines[0], value);
    HeadedShape(lines, value, rewritten);
    SameTailGood(lines, rewritten);
  }

  lemma LayoutLineGood(line: Line, value: string)
    requires GoodLine(line, true) && FirstInk(line).None?
    ensures GoodLine(Headed(line, value), true) && (SlotFree(line) ==> SlotFree(Headed(line, value)))
  {
    FirstInkIs(line);
  }

  lemma PrefixGood(lines: seq<Line>, i: nat)
    requires i <= |lines| && GoodLines(lines)
    ensures forall m | 0 <= m < |lines[..i]| :: GoodLine(lines[..i][m], m == 0)
    ensures AllSlotFree(lines) ==> AllSlotFree(lines[..i])
  {
  }

  lemma TargetGood(lines: seq<Line>, value: string)
    requires lines != [] && GoodLines(lines) && FindTarget(lines).Some?
    ensures GoodLines(Rewrite(lines, value)) && Rewrite(lines, value) != []
    ensures AllSlotFree(lines) ==> AllSlotFree(Rewrite(lines, value))
  {
    var (i, j) := FindTarget(lines).value;
    var line := lines[i][j := Entry(Indent(lines[i][j].text) + value)];
    LineGood(lines, i);
    TargetLineGood(lines[i], j, line[j].text, i == 0);
    LineReplacedGood(lines, i, line);
  }

  lemma LineGood(lines: seq<Line>, i: nat)
    requires i < |lines| && GoodLines(lines)
    ensures GoodLine(lines[i], i == 0)
    ensures AllSlotFree(lines) ==> SlotFree(lines[i])
  {
  }

  lemma LineReplacedGood(lines: seq<Line>, i: nat, line: Line)
    requires i < |lines| && GoodLines(lines) && GoodLine(line, i == 0) && (SlotFree(lines[i]) ==> SlotFree(line))
    ensures var r := lines[..i] + [line] + Retained(lines[i + 1..]);
            GoodLines(r) && r != [] && (AllSlotFree(lines) ==> AllSlotFree(r))
  {
    RetainedGood(lines, i + 1);
    PrefixGood(lines, i);
    LineGood(lines, i);
    AroundGood(lines[..i], line, Retained(lines[i + 1..]));
  }

  lemma TargetLineGood(line: Line, j: nat, text: string, first: bool)
    requires j < |line| && IsInk(line[j]) && GoodLine(line, first)
    ensures GoodLine(line[j := Entry(text)], first)
    ensures SlotFree(line) ==> SlotFree(line[j := Entry(text)])
  {
    var edited := line[j := Entry(text)];
    assert forall m | 0 <= m < |line| && m != j :: edited[m] == line[m];
  }

  lemma AroundGood(before: seq<Line>, line: Line, after: seq<Line>)
    requires forall m | 0 <= m < |before| :: GoodLine(before[m], m == 0)
    requires GoodLine(line, before == [])
    requires forall m | 0 <= m < |after| :: GoodLine(after[m], false)
    ensures GoodLines(before + [line] + after)
    ensures AllSlotFree(before) && SlotFree(line) && AllSlotFree(after) ==> AllSlotFree(before + [line] + after)
  {
  }

  // ------------------------------------------------------------------------------------------- documents

  ghost predicate GoodItem(item: Item) {
    item.OptionItem? ==> GoodLines(item.lines)
  }

  ghost predicate GoodItems(items: seq<Item>) {
    forall i | 0 <= i < |items| :: GoodItem(items[i])
  }

  ghost predicate GoodBlock(block: Block) {
    match block
    case SectionBlock(_, body) => GoodItems(body)
    case ItemBlock(item) => GoodItem(item)
  }

  ghost predicate GoodBlocks(blocks: seq<Block>) {
    forall i | 0 <= i < |blocks| :: GoodBlock(blocks[i])
  }

  ghost predicate GoodTop(top: Top) {
    match top
    case Plain(block) => GoodBlock(block)
    case Exclusion(body, _) => GoodBlocks(body)
  }

  /** Every option of the document has well laid out values. */
  ghost predicate GoodDocument(doc: Document) {
    forall i | 0 <= i < |doc| :: GoodTop(doc[i])
  }

  lemma NewLinesGood(lines: seq<Line>, value: string)
    requires GoodLines(lines)
    ensures GoodLines(NewLines(lines, value))
  {
    if lines == [] {
      ParsedValueGood(value, false);
    } else {
      RewriteGood(lines, value);
    }
  }

  lemma SectionAtGood(doc: Document, r: Ref)
    requires GoodDocument(doc) && ValidRef(doc, r)
    ensures GoodItems(SectionAt(doc, r).body)
  {
    assert GoodTop(doc[r.i]);
    if r.InExclusion? {
      assert GoodBlock(doc[r.i].body[r.j]);
    } else {
      assert GoodBlock(doc[r.i].block);
    }
  }

  lemma WithBodyGood(doc: Document, r: Ref, body: seq<Item>)
    requires GoodDocument(doc) && ValidRef(doc, r) && GoodItems(body)
    ensures GoodDocument(WithBody(doc, r, body))
  {
    var doc' := WithBody(doc, r, body);
    assert GoodTop(doc[r.i]);
    assert GoodTop(doc'[r.i]) by {
      if r.InExclusion? {
        var old', new' := doc[r.i].body, doc'[r.i].body;
        assert GoodBlocks(old');
        assert forall m | 0 <= m < |new'| && m != r.j :: new'[m] == old'[m];
      }
    }
    assert forall i | 0 <= i < |doc'| && i != r.i :: doc'[i] == doc[i];
  }

  /** Setting an option keeps every value of the document well laid out. */
  lemma SetGood(doc: Document, section: string, option: string, value: Option<string>)
    requires GoodDocument(doc) && Set(doc, section, option, value).Some?
    ensures GoodDocument(Set(doc, section, option, value).value)
  {
    var r := FindSection(doc, section).value;
    var v := Strip(if value.Some? then value.value else "");
    var body := SectionAt(doc, r).body;
    SectionAtGood(doc, r);
    EditedBodyGood(body, option, v);
    WithBodyGood(doc, r, EditedBody(body, option, v));
  }

  lemma EditedBodyGood(body: seq<Item>, option: string, value: string)
    requires GoodItems(body)
    ensures GoodItems(EditedBody(body, option, value))
  {
    match FindOption(body, option)
    case Some(k) =>
      assert GoodItem(body[k]);
      NewLinesGood(body[k].lines, value);
      ReplacedGood(body, k, body[k].(lines := NewLines(body[k].lines, value)));
    case None =>
      ParsedValueGood(" " + value, false);
      var item := OptionItem(option, "", DEFAULT_ASSIGN_OP, G.ParseValue(" " + value, false).value);
      AppendedGood(body, item);
  }

  lemma ReplacedGood(body: seq<Item>, k: nat, item: Item)
    requires k < |body| && GoodItems(body) && GoodItem(item)
    ensures GoodItems(body[k := item])
  {
  }

  lemma AppendedGood(body: seq<Item>, item: Item)
    requires GoodItems(body) && GoodItem(item)
    ensures GoodItems(body + [item, SpaceItem("\n")])
  {
  }

  lemma EditedOption(body: seq<Item>, option: string, value: string)
    ensures var k := FindOption(EditedBody(body, option, value), option);
            k.Some? && EditedBody(body, option, value)[k.value].lines ==
              match FindOption(body, option)
              case Some(m) => NewLines(body[m].lines, value)
              case None => G.ParseValue(" " + value, false).value
  {
    var edited := EditedBody(body, option, value);
    match FindOption(body, option)
    case Some(m) => FindOptionIs(edited, option, m);
    case None => FindOptionIs(edited, option, |body|);
  }

  lemma EditedOthers(body: seq<Item>, option: string, value: string, other: string)
    requires other != option
    ensures FindOption(EditedBody(body, option, value), other) == FindOption(body, other)
    ensures FindOption(body, other).Some? ==>
              EditedBody(body, option, value)[FindOption(body, other).value] == body[FindOption(body, other).value]
  {
    match FindOption(body, option)
    case Some(k) => OtherOption(body, k, EditedBody(body, option, value)[k], other);
    case None =>
      AppendedItems(body, [OptionItem(option, "", DEFAULT_ASSIGN_OP, G.ParseValue(" " + value, false).value),
                           SpaceItem("\n")], other);
  }

  /** The option that is written is the one that is read, also among duplicates. */
  lemma SetTarget(doc: Document, section: string, option: string, value: Option<string>)
    requires Set(doc, section, option, value).Some?
    ensures var v := Strip(if value.Some? then value.value else "");
            var item := LookUp(Set(doc, section, option, value).value, section, option);
            item.Some? && item.value.lines ==
              match LookUp(doc, section, option)
              case Some(before) => NewLines(before.lines, v)
              case None => G.ParseValue(" " + v, false).value
  {
    var r := FindSection(doc, section).value;
    var v := Strip(if value.Some? then value.value else "");
    var body := EditedBody(SectionAt(doc, r).body, option, v);
    WithBodySections(doc, r, body, section);
    WithBodyAt(doc, r, body, r);
    EditedOption(SectionAt(doc, r).body, option, v);
  }

  /** A lookup in a section whose body was replaced, when the new body has the same option. */
  lemma SameLookUp(doc: Document, r: Ref, body: seq<Item>, s: string, o: string)
    requires ValidRef(doc, r)
    requires FindSection(doc, s) == Some(r) ==>
               var k := FindOption(SectionAt(doc, r).body, o);
               FindOption(body, o) == k && (k.Some? ==> body[k.value] == SectionAt(doc, r).body[k.value])
    ensures LookUp(WithBody(doc, r, body), s, o) == LookUp(doc, s, o)
  {
    WithBodySections(doc, r, body, s);
    if FindSection(doc, s).Some? {
      WithBodyAt(doc, r, body, FindSection(doc, s).value);
    }
  }

  /** Every other option, of every section, reads as before. */
  lemma SetKeepsOthers(doc: Document, section: string, option: string, value: Option<string>, s: string, o: string)
    requires Set(doc, section, option, value).Some?
    requires (s, o) != (section, option)
    ensures LookUp(Set(doc, section, option, value).value, s, o) == LookUp(doc, s, o)
  {
    var r := FindSection(doc, section).value;
    var v := Strip(if value.Some? then value.value else "");
    var body := SectionAt(doc, r).body;
    if FindSection(doc, s) == Some(r) {
      assert s == section;
      EditedOthers(body, option, v, o);
    }
    SameLookUp(doc, r, EditedBody(body, option, v), s, o);
  }

  /** An existing option reads back as the stripped new value exactly when its old value, if there is one, leaves
      only layout around the new one and, if there is none, the new value is read as a whole. */
  lemma SetReadsBack(doc: Document, section: string, option: string, value: string)
    requires HasOption(doc, section, option)
    ensures var before := LookUp(doc, section, option).value.lines;
            Set(doc, section, option, Some(value)).Some?
            && (Get(Set(doc, section, option, Some(value)).value, section, option) == Some(Strip(value))
                <==> if before != [] then Replaceable(before) else PlainValue(Strip(value)))
  {
    var v := Strip(value);
    StripInk(value);
    SetTarget(doc, section, option, Some(value));
    var before := LookUp(doc, section, option).value.lines;
    if before != [] {
      RewriteReadsBack(before, v);
      assert Rewrite(before, v) != [];
    } else {
      ParsedReadsBack(v);
    }
  }

  /** In particular, a parsed or edited value that is not empty and has no placeholder is replaced. */
  lemma SetReadsBackWithoutPlaceholder(doc: Document, section: string, option: string, value: string)
    requires GoodDocument(doc) && HasOption(doc, section, option)
    requires var before := LookUp(doc, section, option).value.lines; before != [] && AllSlotFree(before)
    ensures Set(doc, section, option, Some(value)).Some?
    ensures Get(Set(doc, section, option, Some(value)).value, section, option) == Some(Strip(value))
  {
    var r := FindSection(doc, section).value;
    SectionAtGood(doc, r);
    var before := LookUp(doc, section, option).value.lines;
    assert GoodLines(before);
    GoodReplaceable(before);
    SetReadsBack(doc, section, option, value);
  }

  // ------------------------------------------------------------------------------- the text around a value

  function OptionHead(item: Item): string
    requires item.OptionItem?
  {
    item.name + item.trailing + item.op
  }

  /** The text before the value of the `k`-th item of a section, and after it. */
  function TextBefore(doc: Document, r: Ref, k: nat): string
    requires ValidRef(doc, r) && k < |SectionAt(doc, r).body| && SectionAt(doc, r).body[k].OptionItem?
  {
    var section := SectionAt(doc, r);
    Write(doc[..r.i]) + (if r.InExclusion? then BlocksText(doc[r.i].body[..r.j]) else "")
    + ("[" + section.name + "]" + ItemsText(section.body[..k]) + OptionHead(section.body[k]))
  }

  function TextAfter(doc: Document, r: Ref, k: nat): string
    requires ValidRef(doc, r) && k < |SectionAt(doc, r).body|
  {
    ItemsText(SectionAt(doc, r).body[k + 1..])
    + ((if r.InExclusion? then BlocksText(doc[r.i].body[r.j + 1..]) else "") + Write(doc[r.i + 1..]))
  }

  lemma ConcatAround<T>(f: T -> string, xs: seq<T>, k: nat)
    requires k < |xs|
    ensures Concat(f, xs) == Concat(f, xs[..k]) + f(xs[k]) + Concat(f, xs[k + 1..])
  {
    ConcatThree(f, xs[..k], xs[k], xs[k + 1..]);
    SplitAround(xs, k);
  }

  lemma ConcatThree<T>(f: T -> string, before: seq<T>, x: T, after: seq<T>)
    ensures Concat(f, before + [x] + after) == Concat(f, before) + f(x) + Concat(f, after)
  {
    ConcatAppend(f, before + [x], after);
    ConcatPush(f, before, x);
  }

  lemma SplitAround<T>(xs: seq<T>, k: nat)
    requires k < |xs|
    ensures xs == xs[..k] + [xs[k]] + xs[k + 1..]
  {
  }

  lemma ValueInSection(name: string, body: seq<Item>, k: nat)
    requires k < |body| && body[k].OptionItem?
    ensures BlockText(SectionBlock(name, body)) ==
              "[" + name + "]" + ItemsText(body[..k]) + OptionHead(body[k]) + LinesText(body[k].lines)
              + ItemsText(body[k + 1..])
  {
    ConcatAround(ItemText, body, k);
    Regroup4("[" + name + "]", ItemsText(body[..k]), OptionHead(body[k]), LinesText(body[k].lines),
             ItemsText(body[k + 1..]));
  }

  lemma Regroup4(a: string, b: string, c: string, d: string, e: string)
    ensures a + (b + (c + d) + e) == a + b + c + d + e
  {
  }

  lemma Surround(a: string, b: string, c: string, d: string, e: string, f: string, g: string)
    ensures a + (b + (c + d + e) + f) + g == a + b + c + d + (e + (f + g))
  {
    assert c + d + e == c + (d + e);
  }

  lemma ValueInDocument(doc: Document, r: Ref, k: nat)
    requires ValidRef(doc, r) && k < |SectionAt(doc, r).body| && SectionAt(doc, r).body[k].OptionItem?
    ensures Write(doc) == TextBefore(doc, r, k) + LinesText(SectionAt(doc, r).body[k].lines) + TextAfter(doc, r, k)
  {
    var section := SectionAt(doc, r);
    var head := "[" + section.name + "]" + ItemsText(section.body[..k]) + OptionHead(section.body[k]);
    var value, tail := LinesText(section.body[k].lines), ItemsText(section.body[k + 1..]);
    ConcatAround(TopText, doc, r.i);
    ValueInSection(section.name, section.body, k);
    if r.InExclusion? {
      ConcatAround(BlockText, doc[r.i].body, r.j);
      Surround(Write(doc[..r.i]), BlocksText(doc[r.i].body[..r.j]), head, value, tail,
               BlocksText(doc[r.i].body[r.j + 1..]), Write(doc[r.i + 1..]));
    } else {
      assert TopText(doc[r.i]) == "" + (head + value + tail) + "";
      Surround(Write(doc[..r.i]), "", head, value, tail, "", Write(doc[r.i + 1..]));
    }
  }

  /** Setting an existing option changes the text of its value and nothing around it. */
  lemma SetKeepsText(doc: Document, section: string, option: string, value: Option<string>)
    requires HasOption(doc, section, option)
    ensures var r := FindSection(doc, section).value;
            var k := FindOption(SectionAt(doc, r).body, option).value;
            var before := SectionAt(doc, r).body[k].lines;
            var v := Strip(if value.Some? then value.value else "");
            && Write(doc) == TextBefore(doc, r, k) + LinesText(before) + TextAfter(doc, r, k)
            && Set(doc, section, option, value).Some?
            && Write(Set(doc, section, option, value).value)
               == TextBefore(doc, r, k) + LinesText(NewLines(before, v)) + TextAfter(doc, r, k)
  {
    var r := FindSection(doc, section).value;
    var body := SectionAt(doc, r).body;
    var k := FindOption(body, option).value;
    var v := Strip(if value.Some? then value.value else "");
    var edited := EditedBody(body, option, v);
    var doc' := WithBody(doc, r, edited);
    ValueInDocument(doc, r, k);
    WithBodyAt(doc, r, edited, r);
    ValueInDocument(doc', r, k);
    assert edited[..k] == body[..k] && edited[k + 1..] == body[k + 1..];
    assert doc'[..r.i] == doc[..r.i] && doc'[r.i + 1..] == doc[r.i + 1..];
    if r.InExclusion? {
      assert doc'[r.i].body[..r.j] == doc[r.i].body[..r.j];
      assert doc'[r.i].body[r.j + 1..] == doc[r.i].body[r.j + 1..];
    }
  }
}
