/** What overwriting a value leaves and what it changes, said of the lines before and after. */
module ConfigOverwrite {
  import opened Text
  import opened ConfigTree
  import opened ConfigLookup
  import opened ConfigEdit
  import G = ConfigGrammar
  import L = ConfigLossless

  /** The elements to keep, in order. */
  function Filter<T>(keep: T -> bool, xs: seq<T>): seq<T> {
    if xs == [] then [] else (if keep(xs[0]) then [xs[0]] else []) + Filter(keep, xs[1..])
  }

  /** An entry with a character that is not whitespace. */
  predicate HoldsText(p: Piece) {
    p.Entry? && exists k | 0 <= k < |p.text| :: !IsSpace(p.text[k])
  }

  predicate StartsWithText(line: Line) {
    line != [] && HoldsText(line[0])
  }

  predicate NoText(line: Line) {
    forall n | 0 <= n < |line| :: !HoldsText(line[n])
  }

  /** The `j`-th piece of the `i`-th line is the first that holds text. */
  predicate IsFirstText(lines: seq<Line>, i: nat, j: nat) {
    && i < |lines| && j < |lines[i]| && HoldsText(lines[i][j])
    && (forall m | 0 <= m < i :: NoText(lines[m])) && (forall n | 0 <= n < j :: !HoldsText(lines[i][n]))
  }

  /** The blanks at the front of `text`, all of them. */
  ghost predicate IsIndent(indent: string, text: string) {
    indent <= text && AllBlank(indent) && (|indent| < |text| ==> !IsBlank(text[|indent|]))
  }

  /** One piece is replaced by its indentation and the value; the lines before it and the other pieces of its line
      are the same, and of the later lines those that start with text are gone. */
  ghost predicate OverwrittenAt(lines: seq<Line>, value: string, i: nat, j: nat, r: seq<Line>)
    requires i < |lines| && j < |lines[i]| && HoldsText(lines[i][j])
  {
    && i < |r| && r[..i] == lines[..i]
    && |r[i]| == |lines[i]| && (forall n | 0 <= n < |lines[i]| && n != j :: r[i][n] == lines[i][n])
    && (exists indent :: IsIndent(indent, lines[i][j].text) && r[i][j] == Entry(indent + value))
    && r[i + 1..] == Filter(line => !StartsWithText(line), lines[i + 1..])
  }

  /** The value is added to the first line: before a comment that starts the line, else at its end. */
  ghost predicate AddedFirst(lines: seq<Line>, value: string, r: seq<Line>)
    requires lines != []
  {
    && |r| == |lines| && r[1..] == lines[1..]
    && r[0] == if lines[0] != [] && lines[0][0].Remark? then [Entry(value)] + lines[0] else lines[0] + [Entry(value)]
  }

  /** `r` is `lines` with the value overwritten. */
  ghost predicate Overwritten(lines: seq<Line>, value: string, r: seq<Line>)
    requires lines != []
  {
    && (forall i: nat, j: nat | IsFirstText(lines, i, j) :: OverwrittenAt(lines, value, i, j, r))
    && ((forall m | 0 <= m < |lines| :: NoText(lines[m])) ==> AddedFirst(lines, value, r))
  }

  lemma HoldsTextIs(p: Piece)
    ensures HoldsText(p) <==> IsInk(p)
  {
  }

  lemma NoTextIs(line: Line)
    ensures NoText(line) <==> FirstInk(line).None?
  {
    FirstInkIs(line);
    forall n | 0 <= n < |line| ensures HoldsText(line[n]) <==> IsInk(line[n]) {
      HoldsTextIs(line[n]);
    }
  }

  lemma FirstTextIs(lines: seq<Line>, i: nat, j: nat)
    requires IsFirstText(lines, i, j)
    ensures FindTarget(lines) == Some((i, j))
  {
    FindTargetIs(lines);
    forall m | 0 <= m < |lines| ensures NoText(lines[m]) <==> FirstInk(lines[m]).None? {
      NoTextIs(lines[m]);
    }
    FirstInkIs(lines[i]);
    forall n | 0 <= n < |lines[i]| ensures HoldsText(lines[i][n]) <==> IsInk(lines[i][n]) {
      HoldsTextIs(lines[i][n]);
    }
  }

  lemma {:induction false} RetainedIs(lines: seq<Line>)
    ensures Retained(lines) == Filter(line => !StartsWithText(line), lines)
  {
    if lines != [] {
      RetainedIs(lines[1..]);
      if lines[0] != [] {
        HoldsTextIs(lines[0][0]);
      }
    }
  }

  lemma OverwrittenThere(lines: seq<Line>, value: string, i: nat, j: nat)
    requires IsFirstText(lines, i, j)
    ensures OverwrittenAt(lines, value, i, j, Rewrite(lines, value))
  {
    FirstTextIs(lines, i, j);
    RetainedIs(lines[i + 1..]);
    var text := lines[i][j].text;
    BlankBefore(text);
    assert IsIndent(Indent(text), text);
    RewrittenParts(lines, i, lines[i][j := Entry(Indent(text) + value)], Retained(lines[i + 1..]));
  }

  lemma RewrittenParts(lines: seq<Line>, i: nat, line: Line, after: seq<Line>)
    requires i < |lines|
    ensures var r := lines[..i] + [line] + after;
            |r| > i && r[..i] == lines[..i] && r[i] == line && r[i + 1..] == after
  {
  }

  /** Overwriting keeps the line's own indentation, everything before the value and everything on its line, and
      drops exactly the later lines that start with text. */
  lemma OverwriteIs(lines: seq<Line>, value: string)
    requires lines != []
    ensures Overwritten(lines, value, Rewrite(lines, value))
  {
    forall i: nat, j: nat | IsFirstText(lines, i, j)
      ensures OverwrittenAt(lines, value, i, j, Rewrite(lines, value))
    {
      OverwrittenThere(lines, value, i, j);
    }
    if forall m | 0 <= m < |lines| :: NoText(lines[m]) {
      if FindTarget(lines).Some? {
        NoTextIs(lines[FindTarget(lines).value.0]);
        assert false;
      }
      assert Rewrite(lines, value) == [Headed(lines[0], value)] + lines[1..];
    }
  }

  /** What an existing option holds after a set: its lines overwritten, or the value as it is parsed when it had
      none. */
  lemma SetOverwrites(doc: Document, section: string, option: string, value: Option<string>)
    requires HasOption(doc, section, option)
    ensures var v := Strip(if value.Some? then value.value else "");
            var before := LookUp(doc, section, option).value.lines;
            && Set(doc, section, option, value).Some?
            && HasOption(Set(doc, section, option, value).value, section, option)
            && var after := LookUp(Set(doc, section, option, value).value, section, option).value.lines;
               if before == [] then after == G.ParseValue(v, false).value else Overwritten(before, v, after)
  {
    SetTarget(doc, section, option, value);
    var before := LookUp(doc, section, option).value.lines;
    if before != [] {
      OverwriteIs(before, Strip(if value.Some? then value.value else ""));
    }
  }

  // ------------------------------------------------------------------------------------------- a new option

  /** The text before the section at `r`, and the text after it. */
  function BeforeSection(doc: Document, r: Ref): string
    requires ValidRef(doc, r)
  {
    Write(doc[..r.i]) + if r.InExclusion? then BlocksText(doc[r.i].body[..r.j]) else ""
  }

  function AfterSection(doc: Document, r: Ref): string
    requires ValidRef(doc, r)
  {
    (if r.InExclusion? then BlocksText(doc[r.i].body[r.j + 1..]) else "") + Write(doc[r.i + 1..])
  }

  lemma SectionInDocument(doc: Document, r: Ref)
    requires ValidRef(doc, r)
    ensures Write(doc) == BeforeSection(doc, r) + BlockText(SectionAt(doc, r)) + AfterSection(doc, r)
  {
    ConcatAround(TopText, doc, r.i);
    var block := BlockText(SectionAt(doc, r));
    if r.InExclusion? {
      ConcatAround(BlockText, doc[r.i].body, r.j);
      Nested(Write(doc[..r.i]), BlocksText(doc[r.i].body[..r.j]), block, BlocksText(doc[r.i].body[r.j + 1..]),
             Write(doc[r.i + 1..]));
    } else {
      Nested(Write(doc[..r.i]), "", block, "", Write(doc[r.i + 1..]));
      assert "" + block + "" == block;
    }
  }

  lemma Nested(a: string, b: string, c: string, d: string, e: string)
    ensures a + (b + c + d) + e == a + b + c + (d + e)
  {
  }

  lemma AroundStays(doc: Document, r: Ref, body: seq<Item>)
    requires ValidRef(doc, r)
    ensures var doc' := WithBody(doc, r, body);
            && ValidRef(doc', r) && SectionAt(doc', r) == SectionBlock(SectionAt(doc, r).name, body)
            && BeforeSection(doc', r) == BeforeSection(doc, r) && AfterSection(doc', r) == AfterSection(doc, r)
  {
    var doc' := WithBody(doc, r, body);
    assert doc'[..r.i] == doc[..r.i] && doc'[r.i + 1..] == doc[r.i + 1..];
    if r.InExclusion? {
      assert doc'[r.i].body[..r.j] == doc[r.i].body[..r.j];
      assert doc'[r.i].body[r.j + 1..] == doc[r.i].body[r.j + 1..];
    }
  }

  lemma AddedItems(body: seq<Item>, item: Item)
    ensures ItemsText(body + [item, SpaceItem("\n")]) == ItemsText(body) + (ItemText(item) + "\n")
  {
    ConcatAppend(ItemText, body, [item, SpaceItem("\n")]);
    assert [item, SpaceItem("\n")] == [item] + [SpaceItem("\n")];
    ConcatAppend(ItemText, [item], [SpaceItem("\n")]);
    ConcatOne(ItemText, item);
    ConcatOne(ItemText, SpaceItem("\n"));
  }

  lemma HeadAndText(option: string, text: string, v: string)
    requires text == " " + v
    ensures option + "" + ":" + text == option + ": " + v
  {
    assert option + "" == option;
    Associate(option + ":", " ", v);
    Associate(option, ":", " ");
  }

  lemma AddedText(option: string, v: string)
    requires G.ParseValue(" " + v, false).rest == ""
    ensures ItemText(OptionItem(option, "", ":", G.ParseValue(" " + v, false).value)) == option + ": " + v
  {
    WholeText(" " + v);
    HeadAndText(option, LinesText(G.ParseValue(" " + v, false).value), v);
  }

  lemma WholeText(s: string)
    requires G.ParseValue(s, false).rest == ""
    ensures LinesText(G.ParseValue(s, false).value) == s
  {
    L.ValueLoopText(G.EMPTY_VALUE, s, false);
    L.Empties(LinesText(G.ParseValue(s, false).value));
    L.Empties(s);
    assert L.StateText(PieceText, G.EMPTY_VALUE) == "";
  }

  lemma Insert(a: string, h: string, items: string, x: string, b: string)
    ensures a + (h + (items + x)) + b == a + (h + items) + x + b
  {
  }

  /** A value set on an option that the section does not have is written on a line of its own at the end of the
      section, and nothing else changes. */
  lemma SetAddsOption(doc: Document, section: string, option: string, value: Option<string>)
    requires HasSection(doc, section) && !HasOption(doc, section, option)
    requires G.ParseValue(" " + Strip(if value.Some? then value.value else ""), false).rest == ""
    ensures var r := FindSection(doc, section).value;
            var v := Strip(if value.Some? then value.value else "");
            var front := BeforeSection(doc, r) + BlockText(SectionAt(doc, r));
            && Write(doc) == front + AfterSection(doc, r)
            && Set(doc, section, option, value).Some?
            && Write(Set(doc, section, option, value).value)
               == front + (option + ": " + v + "\n") + AfterSection(doc, r)
  {
    var r := FindSection(doc, section).value;
    var v := Strip(if value.Some? then value.value else "");
    var body, name := SectionAt(doc, r).body, SectionAt(doc, r).name;
    var item := OptionItem(option, "", ":", G.ParseValue(" " + v, false).value);
    var added := body + [item, SpaceItem("\n")];
    assert EditedBody(body, option, v) == added;
    SectionInDocument(doc, r);
    AroundStays(doc, r, added);
    SectionInDocument(WithBody(doc, r, added), r);
    AddedItems(body, item);
    AddedText(option, v);
    Insert(BeforeSection(doc, r), "[" + name + "]", ItemsText(body), option + ": " + v + "\n", AfterSection(doc, r));
  }
}
