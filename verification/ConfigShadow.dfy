/** An existing config whose excluded block hides an option of the template. */
module ConfigShadow {
  import opened Text
  import opened ConfigTokens
  import opened ConfigTree
  import opened ConfigGrammar
  import opened ConfigLookup
  import opened ConfigFailures
  import opened ConfigReread
  import opened ConfigExamples
  import opened ConfigMerge
  import Q = ConfigReparse
  import R = ConfigRemoval
  import Y = ConfigLocality
  import M = ConfigMarkers

  const MAGIC := "# EXCLUDE FROM CONFIG BUILDER"
  const BREAK := SpaceItem("\n")

  // ------------------------------------------------------------------------------------------ sections as parsed

  function Valued(name: string, v: string): Item {
    OptionItem(name, "", ":", [[Entry(v)]])
  }

  /** A header's body with one option on one line. */
  function BodyText(name: string, v: string, tail: string): string {
    "\n" + (name + (":" + (v + ("\n" + tail))))
  }

  /** What may follow such an option. */
  predicate Follows(tail: string) {
    (tail == "" || !IsSpace(tail[0])) && !ContinuationFollows(tail)
  }

  lemma BreakToken(tail: string)
    requires tail == "" || !IsSpace(tail[0])
    ensures Lex("\n" + tail) == Token(Whitespace, "\n") && After("\n" + tail, Token(Whitespace, "\n")) == tail
  {
    var s := "\n" + tail;
    assert s[1..] == tail && SpaceLength(tail) == 0 && SpaceLength(s) == 1;
    LexSpace(s);
    assert s[..1] == "\n";
  }

  lemma BreakEnds(tail: string)
    requires Follows(tail)
    ensures Q.Ends("\n" + tail)
  {
    BreakToken(tail);
    Q.EndsIs("\n" + tail);
  }

  lemma NameToken(name: string, more: string)
    requires |name| == 1 && IsWordChar(name[0])
    ensures Lex(name + (":" + more)) == Token(Word, name)
    ensures After(name + (":" + more), Token(Word, name)) == ":" + more
  {
    var s := name + (":" + more);
    assert s[1..] == ":" + more && WordTailLength(s[1..]) == 0 && s[..1] == name;
    WordFirst(s);
  }

  lemma ColonToken(more: string)
    ensures Lex(":" + more) == Token(AssignOp, ":") && After(":" + more, Token(AssignOp, ":")) == more
  {
    var s := ":" + more;
    AssignFirst(s);
    assert s[..1] == ":" && s[1..] == more;
  }

  lemma OptionParsed(name: string, v: string, tail: string)
    requires |name| == 1 && IsWordChar(name[0]) && !("gcode" <= name) && Q.Inline(v) && Follows(tail)
    ensures Lex(name + (":" + (v + ("\n" + tail)))).kind == Word
    ensures ParseOption(name + (":" + (v + ("\n" + tail)))) == Success(Valued(name, v), "\n" + tail)
  {
    ValueParsed(v, tail);
    OptionHere(name, v + ("\n" + tail));
  }

  lemma ValueParsed(v: string, tail: string)
    requires Q.Inline(v) && Follows(tail)
    ensures ParseValue(v + ("\n" + tail), false) == Parsed([[Entry(v)]], "\n" + tail)
  {
    BreakEnds(tail);
    Q.ValueReadsBack("", "", v, "\n" + tail);
    NothingAround(v, "\n" + tail);
    assert Q.OneLine("", v, "") == [Entry(v)];
  }

  lemma NothingAround(v: string, more: string)
    ensures "" + v + "" + more == v + more
  {
  }

  lemma OptionHere(name: string, more: string)
    requires |name| == 1 && IsWordChar(name[0]) && !("gcode" <= name)
    ensures var s := name + (":" + more);
            var value := ParseValue(more, false);
            Lex(s).kind == Word && ParseOption(s) == Success(OptionItem(name, "", ":", value.value), value.rest)
  {
    NameToken(name, more);
    ColonToken(more);
    assert (":" + more)[0..] == ":" + more;
    OptionIs(name + (":" + more));
  }

  /** The three items of the body. */
  lemma BodyParsed(name: string, v: string, tail: string, marker: bool)
    requires |name| == 1 && IsWordChar(name[0]) && !("gcode" <= name) && Q.Inline(v) && Follows(tail)
    ensures SectionLoop([], BodyText(name, v, tail), 0, marker)
            == SectionLoop([BREAK, Valued(name, v), BREAK], tail, 0, marker)
  {
    BreakRound([], name + (":" + (v + ("\n" + tail))), marker);
    OptionParsed(name, v, tail);
    OptionRound([BREAK], name, v, tail, marker);
    BreakRound([BREAK] + [Valued(name, v)], tail, marker);
    ThreeItems(Valued(name, v));
  }

  lemma ThreeItems(item: Item)
    ensures [] + [BREAK] == [BREAK] && [BREAK] + [item] + [BREAK] == [BREAK, item, BREAK]
  {
  }

  lemma BreakRound(body: seq<Item>, tail: string, marker: bool)
    requires tail == "" || !IsSpace(tail[0])
    ensures SectionLoop(body, "\n" + tail, 0, marker) == SectionLoop(body + [BREAK], tail, 0, marker)
  {
    BreakToken(tail);
    assert SectionStep("\n" + tail, 0, marker) == Progress([BREAK], tail, 0);
  }

  lemma OptionRound(body: seq<Item>, name: string, v: string, tail: string, marker: bool)
    requires var s := name + (":" + (v + ("\n" + tail)));
             s != "" && Lex(s).kind == Word && ParseOption(s) == Success(Valued(name, v), "\n" + tail)
    ensures SectionLoop(body, name + (":" + (v + ("\n" + tail))), 0, marker)
            == SectionLoop(body + [Valued(name, v)], "\n" + tail, 0, marker)
  {
    var s := name + (":" + (v + ("\n" + tail)));
    assert SectionStep(s, 0, marker) == Progress([Valued(name, v)], "\n" + tail, 0);
  }

  // ----------------------------------------------------------------------------------------- the two documents

  const NOTE := ItemBlock(CommentItem([CommentText(MAGIC)]))

  function Section(name: string, v: string): Block {
    SectionBlock("s", [BREAK, Valued(name, v), BREAK])
  }

  /** A template with an option in a section and an excluded block behind it. */
  const TEMPLATE := "[s]" + BodyText("a", "1", MAGIC + "\n")

  /** An existing config that has the section in its excluded block only. */
  const PRIOR := MAGIC + ("\n" + ("[s]" + BodyText("b", "2", "")))

  function TemplateDoc(o: Option<string>): Document {
    [Plain(Section("a", "1")), Exclusion([NOTE, ItemBlock(BREAK)], o)]
  }

  function PriorDoc(o: Option<string>): Document {
    [Exclusion([NOTE, ItemBlock(BREAK), Section("b", "2")], o)]
  }

  lemma MagicNote(tail: string)
    requires tail != "" && tail[0] == '\n'
    ensures IsMagicComment(Lex(MAGIC + tail))
    ensures ParseComment(MAGIC + tail) == Parsed([CommentText(MAGIC)], tail)
  {
    MagicLine(tail);
    Q.NoteComment(MAGIC, tail);
    assert SpaceLength(MAGIC) == 0;
  }

  lemma MagicLine(tail: string)
    ensures Q.Note(MAGIC, tail)
  {
    assert BlankLength(MAGIC) == 0 && BlankLength(MAGIC + tail) == 0;
    assert (MAGIC + tail)[2] == 'E' && HIDDEN_TEXT[2] == 'S' && (MAGIC + tail)[0..] == MAGIC + tail;
  }

  lemma MagicFollows()
    ensures Follows(MAGIC + "\n")
  {
    LineLengthOnly(MAGIC + "\n", |MAGIC|);
    assert (MAGIC + "\n")[..|MAGIC|] == MAGIC && BlankLength(MAGIC) == 0;
    assert (MAGIC + "\n")[|MAGIC| + 1..] == "";
  }

  lemma HeaderToken(name: string, v: string, tail: string)
    ensures Lex("[s]" + BodyText(name, v, tail)) == Token(Kind.Section, "[s]")
    ensures After("[s]" + BodyText(name, v, tail), Token(Kind.Section, "[s]")) == BodyText(name, v, tail)
  {
    var rest := name + (":" + (v + ("\n" + tail)));
    HeaderFirst(rest);
    assert "[s]" + ("\n" + rest) == "[s]\n" + rest;
  }

  lemma SectionRead(name: string, v: string, tail: string, marker: bool)
    requires |name| == 1 && IsWordChar(name[0]) && !("gcode" <= name) && Q.Inline(v) && Follows(tail)
    requires SectionEnds(tail)
    ensures BlockStep("[s]" + BodyText(name, v, tail), 0, marker) == Progress([Section(name, v)], tail, 0)
  {
    HeaderToken(name, v, tail);
    BodyParsed(name, v, tail, marker);
    SectionStepIs("[s]" + BodyText(name, v, tail), BodyText(name, v, tail), Section(name, v).body, tail, marker);
  }

  lemma SectionStepIs(s: string, after: string, body: seq<Item>, rest: string, marker: bool)
    requires s != "" && Lex(s) == Token(Kind.Section, "[s]") && After(s, Lex(s)) == after
    requires SectionLoop([], after, 0, marker) == Progress(body, rest, 0)
    ensures BlockStep(s, 0, marker) == Progress([SectionBlock("s", body)], rest, 0)
  {
    assert Inner("[s]") == "s";
  }

  lemma Values()
    ensures Q.Inline("1") && Q.Inline("2") && !("gcode" <= "a") && !("gcode" <= "b")
  {
    Q.OneCharacter('1');
    Q.OneCharacter('2');
  }

  lemma LastBreak(blocks: seq<Block>, marker: bool)
    ensures ExclusionLoop(blocks, "\n", 0, marker) == Progress(blocks + [ItemBlock(BREAK)], "", 0)
  {
    assert "\n" + "" == "\n";
    BlockBreak("", marker);
    assert ExclusionLoop(blocks + [ItemBlock(BREAK)], "", 0, marker) == Progress(blocks + [ItemBlock(BREAK)], "", 0);
  }

  lemma BlockBreak(tail: string, marker: bool)
    requires tail == "" || !IsSpace(tail[0])
    ensures BlockStep("\n" + tail, 0, marker) == Progress([ItemBlock(BREAK)], tail, 0)
  {
    BreakToken(tail);
  }

  lemma SectionThenExcluded(s: string, rest: string, block: Block, marker: bool, o: Option<string>)
    requires s != "" && Lex(s).kind == Kind.Section && BlockStep(s, 0, marker) == Progress([block], rest, 0)
    requires rest != "" && IsMagicComment(Lex(rest)) && ParseComment(rest) == Parsed([CommentText(MAGIC)], "\n")
    ensures DocumentLoop([], s, 0, marker, o).value == [Plain(block), Exclusion([NOTE, ItemBlock(BREAK)], o)]
  {
    NoteThenBreak(marker);
    OneTop(block);
    DocumentRound(s, [block], rest, marker, o);
    ExclusionHere([Plain(block)], rest, [NOTE, ItemBlock(BREAK)], marker, o);
    Two(Plain(block), Exclusion([NOTE, ItemBlock(BREAK)], o));
  }

  lemma Two(x: Top, y: Top)
    ensures [x] + [y] == [x, y]
  {
  }

  lemma NoteThenBreak(marker: bool)
    ensures ExclusionLoop([NOTE], "\n", 0, marker) == Progress([NOTE, ItemBlock(BREAK)], "", 0)
  {
    LastBreak([NOTE], marker);
    assert [NOTE] + [ItemBlock(BREAK)] == [NOTE, ItemBlock(BREAK)];
  }

  lemma OneTop(block: Block)
    ensures [] + AsTops([block]) == [Plain(block)]
  {
    assert [block][1..] == [];
  }

  lemma DocumentRound(s: string, blocks: seq<Block>, rest: string, marker: bool, o: Option<string>)
    requires s != "" && !IsMagicComment(Lex(s)) && BlockStep(s, 0, marker) == Progress(blocks, rest, 0)
    ensures DocumentLoop([], s, 0, marker, o) == DocumentLoop([] + AsTops(blocks), rest, 0, marker, o)
  {
  }

  lemma ExclusionHere(body: Document, s: string, excluded: seq<Block>, marker: bool, o: Option<string>)
    requires s != "" && IsMagicComment(Lex(s)) && ParseComment(s) == Parsed([CommentText(MAGIC)], "\n")
    requires ExclusionLoop([NOTE], "\n", 0, marker) == Progress(excluded, "", 0)
    ensures DocumentLoop(body, s, 0, marker, o).value == body + [Exclusion(excluded, o)]
  {
  }

  lemma TemplateParsed(marker: bool, o: Option<string>)
    ensures Parse(TEMPLATE, marker, o) == TemplateDoc(o)
  {
    Values();
    MagicFollows();
    MagicNote("\n");
    SectionRead("a", "1", MAGIC + "\n", marker);
    HeaderToken("a", "1", MAGIC + "\n");
    SectionThenExcluded(TEMPLATE, MAGIC + "\n", Section("a", "1"), marker, o);
    NothingLifted(o);
  }

  /** The section ends with its option and one line break, and stays as it is. */
  lemma NothingLifted(o: Option<string>)
    ensures PostProcess(TemplateDoc(o)) == TemplateDoc(o)
  {
    var body := Section("a", "1").body;
    assert body[..2][1].OptionItem? && body[..|body| - 1] == body[..2];
    assert AfterLastOption(body[..2]) == 2 && AfterLastOption(body) == 2 && SectionKeeps(body) == 3;
    assert body[..3] == body && body[3..] == [];
    assert Lifted(TemplateDoc(o)[0]) == [TemplateDoc(o)[0]];
    assert TemplateDoc(o)[1..] == [TemplateDoc(o)[1]] && TemplateDoc(o)[1..][1..] == [];
    assert PostProcess(TemplateDoc(o)[1..]) == [TemplateDoc(o)[1]];
  }

  lemma ExclusionRound(body: seq<Block>, s: string, blocks: seq<Block>, rest: string, marker: bool)
    requires s != "" && BlockStep(s, 0, marker) == Progress(blocks, rest, 0)
    ensures ExclusionLoop(body, s, 0, marker) == ExclusionLoop(body + blocks, rest, 0, marker)
  {
  }

  /** A text that starts with the comment of an excluded block is one. */
  lemma WholeExclusion(s: string, rest: string, body: seq<Block>, marker: bool, o: Option<string>)
    requires s != "" && IsMagicComment(Lex(s)) && ParseComment(s) == Parsed([CommentText(MAGIC)], rest)
    requires ExclusionLoop([NOTE], rest, 0, marker) == Progress(body, "", 0)
    ensures Parse(s, marker, o) == [Exclusion(body, o)]
  {
    var doc := [Exclusion(body, o)];
    assert [] + doc == doc;
    assert DocumentLoop([], s, 0, marker, o).value == doc;
    assert doc[1..] == [] && PostProcess(doc) == doc;
  }

  lemma TwoRounds(first: Block, tail: string, second: Block, rest: string, third: Block, marker: bool)
    requires tail != "" && BlockStep(tail, 0, marker) == Progress([second], rest, 0)
    requires rest != "" && BlockStep(rest, 0, marker) == Progress([third], "", 0)
    ensures ExclusionLoop([first], tail, 0, marker) == Progress([first, second, third], "", 0)
  {
    ExclusionRound([first], tail, [second], rest, marker);
    ExclusionRound([first] + [second], rest, [third], "", marker);
    assert [first] + [second] + [third] == [first, second, third];
    ExclusionEnd([first, second, third], marker);
  }

  lemma ExclusionEnd(body: seq<Block>, marker: bool)
    ensures ExclusionLoop(body, "", 0, marker) == Progress(body, "", 0)
  {
  }

  lemma SectionExcluded(s: string, tail: string, rest: string, block: Block, marker: bool, o: Option<string>)
    requires s != "" && IsMagicComment(Lex(s)) && ParseComment(s) == Parsed([CommentText(MAGIC)], tail)
    requires tail != "" && BlockStep(tail, 0, marker) == Progress([ItemBlock(BREAK)], rest, 0)
    requires rest != "" && BlockStep(rest, 0, marker) == Progress([block], "", 0)
    ensures Parse(s, marker, o) == [Exclusion([NOTE, ItemBlock(BREAK), block], o)]
  {
    TwoRounds(NOTE, tail, ItemBlock(BREAK), rest, block, marker);
    WholeExclusion(s, tail, [NOTE, ItemBlock(BREAK), block], marker, o);
  }

  lemma PriorParsed(marker: bool, o: Option<string>)
    ensures Parse(PRIOR, marker, o) == PriorDoc(o)
  {
    var rest := "[s]" + BodyText("b", "2", "");
    Values();
    MagicNote("\n" + rest);
    BlockBreak(rest, marker);
    SectionRead("b", "2", "", marker);
    SectionExcluded(PRIOR, "\n" + rest, rest, Section("b", "2"), marker, o);
  }

  // ---------------------------------------------------------------------------------------------- the merge

  /** Both as read from text: the merge leaves the template's option as it is, and once the excluded block is carried
      over the option can no longer be read. */
  lemma ShadowedOptionLost(marker: bool, o: Option<string>)
    ensures
      var doc, prior := Parse(TEMPLATE, marker, o), Parse(PRIOR, marker, o);
      && LookUp(Merged(doc, prior, REFRESH), "s", "a") == Some(Valued("a", "1"))
      && LookUp(Updated(doc, prior, REFRESH, o), "s", "a") == None
  {
    TemplateParsed(marker, o);
    PriorParsed(marker, o);
    LastSections(o);
    OptionsOf("a", "1");
    OptionsOf("b", "2");
    R.LookUpIs(TemplateDoc(o), "s", "a");
    NothingMerged(o);
    BlocksCarried(o);
    UpdatedReads(TemplateDoc(o), PriorDoc(o), REFRESH, o, "s", "a");
  }

  lemma LastSections(o: Option<string>)
    ensures R.LastSection(TemplateDoc(o), "s") == Some(Section("a", "1"))
    ensures R.LastSection(PriorDoc(o), "s") == Some(Section("b", "2"))
    ensures forall name :: name != "s" ==> R.LastSection(PriorDoc(o), name) == None
  {
    var t, p := TemplateDoc(o), PriorDoc(o);
    assert t[1..] == [t[1]] && t[1..][1..] == [] && p[1..] == [];
    var block, others := p[0].body, t[1].body;
    assert block[1..] == [ItemBlock(BREAK), Section("b", "2")] && block[1..][1..] == [Section("b", "2")];
    assert block[1..][1..][1..] == [] && others[1..] == [ItemBlock(BREAK)] && others[1..][1..] == [];
    forall name ensures R.LastOf(block, name) == if name == "s" then Some(Section("b", "2")) else None
                ensures R.LastOf(others, name) == None {
      assert R.LastOf(block[1..][1..], name) == if name == "s" then Some(Section("b", "2")) else None;
      assert R.LastOf(others[1..], name) == None;
    }
    assert R.LastSection(t[1..], "s") == None;
  }

  lemma OptionsOf(name: string, v: string)
    ensures forall o :: FindOption(Section(name, v).body, o) == if o == name then Some(1) else None
  {
    var body := Section(name, v).body;
    assert body[..2] == [BREAK, Valued(name, v)] && body[..2][..1] == [BREAK] && [BREAK][..0] == [];
  }

  /** The existing config has no option that the template has. */
  lemma NothingMerged(o: Option<string>)
    ensures Merged(TemplateDoc(o), PriorDoc(o), REFRESH) == TemplateDoc(o)
  {
    var doc, prior := TemplateDoc(o), PriorDoc(o);
    var keys := MergedKeys(doc);
    forall i | 0 <= i < |keys| ensures !HasOption(prior, keys[i].0, keys[i].1) {
      MergedKeysAre(doc, keys[i]);
      KeyUnknown(o, keys[i]);
    }
    KeysUnknown(doc, prior, keys);
  }

  lemma KeyUnknown(o: Option<string>, key: Key)
    requires HasOption(TemplateDoc(o), key.0, key.1)
    ensures !HasOption(PriorDoc(o), key.0, key.1)
  {
    LastSections(o);
    OptionsOf("a", "1");
    OptionsOf("b", "2");
    R.LookUpIs(TemplateDoc(o), key.0, key.1);
    R.LookUpIs(PriorDoc(o), key.0, key.1);
  }

  /** Keys that the previous config does not have change nothing. */
  lemma {:induction false} KeysUnknown(doc: Document, prior: Document, keys: seq<Key>)
    requires forall i | 0 <= i < |keys| :: !HasOption(prior, keys[i].0, keys[i].1)
    ensures MergeKeys(doc, prior, REFRESH, keys) == doc
    decreases |keys|
  {
    if keys != [] {
      KeysUnknown(doc, prior, keys[1..]);
    }
  }

  lemma BlocksCarried(o: Option<string>)
    ensures Carries(TemplateDoc(o), PriorDoc(o), o) && ExcludedNodes(PriorDoc(o), o) == PriorDoc(o)
  {
    var t, p := TemplateDoc(o), PriorDoc(o);
    assert p[1..] == [] && [p[0]] + ExcludedNodes([], o) == p;
    assert ExcludedNodes(t[1..], None)[0] == t[1];
    assert ExcludedNodes(t, None) == [] + ExcludedNodes(t[1..], None);
  }
}
