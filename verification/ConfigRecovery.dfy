/** Error recovery is bounded: each recovery leaves exactly one unparsed node, and the parser gives up on the
    rest of the text after `MAX_RECOVERIES` of them. */
module ConfigRecovery {
  import opened Text
  import opened ConfigTokens
  import opened ConfigTree
  import opened ConfigGrammar

  /** The recoveries made so far, and that nothing is left to read once the limit is passed. */
  ghost predicate WithinLimit(s: string, recoveries: nat) {
    recoveries <= MAX_RECOVERIES || (recoveries == MAX_RECOVERIES + 1 && s == "")
  }

  lemma RecoverCounts(s: string, reason: string, recoveries: nat, marker: bool)
    requires s != "" && WithinLimit(s, recoveries)
    ensures var r := Recover(s, reason, recoveries, marker);
            WithinLimit(r.rest, r.recoveries) && Total(UnparsedInItem, r.value) + recoveries == r.recoveries
  {
    var n := ResyncLength(s, recoveries + 1 > MAX_RECOVERIES);
    var text := WithoutMarkers(s[..n]);
    var items := RecoveredItems(s[..n], reason, marker);
    assert text != "" by {
      assert Strip("") == "";
    }
    assert items[0] == UnparsedItem(text, reason);
    OnlyFirst(items);
  }

  lemma {:induction false} NoneUnparsed(items: seq<Item>)
    requires forall i | 0 <= i < |items| :: !items[i].UnparsedItem?
    ensures Total(UnparsedInItem, items) == 0
  {
    if items != [] {
      NoneUnparsed(items[1..]);
    }
  }

  lemma OnlyFirst(items: seq<Item>)
    requires items != [] && items[0].UnparsedItem?
    requires forall i | 1 <= i < |items| :: !items[i].UnparsedItem?
    ensures Total(UnparsedInItem, items) == 1
  {
    NoneUnparsed(items[1..]);
  }

  lemma SectionStepCounts(s: string, recoveries: nat, marker: bool)
    requires s != "" && WithinLimit(s, recoveries)
    ensures var r := SectionStep(s, recoveries, marker);
            WithinLimit(r.rest, r.recoveries) && Total(UnparsedInItem, r.value) + recoveries == r.recoveries
  {
    var t := Lex(s);
    var r := SectionStep(s, recoveries, marker);
    if SimpleItem(t).Some? || t.kind == Comment || (t.kind == Word && ParseOption(s).Success?) {
      NoneUnparsed(r.value);
    } else if t.kind == Word {
      RecoverCounts(s, ParseOption(s).reason, recoveries, marker);
    } else {
      RecoverCounts(s, UnexpectedToken(t), recoveries, marker);
    }
  }

  lemma {:induction false} SectionLoopCounts(body: seq<Item>, s: string, recoveries: nat, marker: bool)
    requires WithinLimit(s, recoveries)
    ensures var r := SectionLoop(body, s, recoveries, marker);
            WithinLimit(r.rest, r.recoveries)
            && Total(UnparsedInItem, r.value) + recoveries == Total(UnparsedInItem, body) + r.recoveries
    decreases |s|
  {
    if !SectionEnds(s) {
      var step := SectionStep(s, recoveries, marker);
      SectionStepCounts(s, recoveries, marker);
      SectionStepProgress(s, recoveries, marker);
      SectionLoopCounts(body + step.value, step.rest, step.recoveries, marker);
      TotalAppend(UnparsedInItem, body, step.value);
    }
  }

  lemma {:induction false} AsBlocksCounts(items: seq<Item>)
    ensures Total(UnparsedInBlock, AsBlocks(items)) == Total(UnparsedInItem, items)
  {
    if items != [] {
      AsBlocksCounts(items[1..]);
      assert AsBlocks(items)[1..] == AsBlocks(items[1..]);
    }
  }

  lemma {:induction false} AsTopsCounts(blocks: seq<Block>)
    ensures ParseErrors(AsTops(blocks)) == Total(UnparsedInBlock, blocks)
  {
    if blocks != [] {
      AsTopsCounts(blocks[1..]);
      assert AsTops(blocks)[1..] == AsTops(blocks[1..]);
    }
  }

  lemma BlockStepCounts(s: string, recoveries: nat, marker: bool)
    requires s != "" && WithinLimit(s, recoveries)
    ensures var r := BlockStep(s, recoveries, marker);
            WithinLimit(r.rest, r.recoveries) && Total(UnparsedInBlock, r.value) + recoveries == r.recoveries
  {
    var t := Lex(s);
    var r := BlockStep(s, recoveries, marker);
    if t.kind == Section {
      SectionLoopCounts([], After(s, t), recoveries, marker);
      TotalOne(UnparsedInBlock, r.value[0]);
    } else if SimpleItem(t).Some? || t.kind == Comment {
      TotalOne(UnparsedInBlock, r.value[0]);
    } else {
      RecoverCounts(s, UnexpectedToken(t), recoveries, marker);
      AsBlocksCounts(Recover(s, UnexpectedToken(t), recoveries, marker).value);
    }
  }

  lemma {:induction false} ExclusionLoopCounts(body: seq<Block>, s: string, recoveries: nat, marker: bool)
    requires WithinLimit(s, recoveries)
    ensures var r := ExclusionLoop(body, s, recoveries, marker);
            WithinLimit(r.rest, r.recoveries)
            && Total(UnparsedInBlock, r.value) + recoveries == Total(UnparsedInBlock, body) + r.recoveries
    decreases |s|
  {
    if s != "" {
      var step := BlockStep(s, recoveries, marker);
      BlockStepCounts(s, recoveries, marker);
      BlockStepProgress(s, recoveries, marker);
      ExclusionLoopCounts(body + step.value, step.rest, step.recoveries, marker);
      TotalAppend(UnparsedInBlock, body, step.value);
    }
  }

  lemma {:induction false} DocumentLoopCounts(body: Document, s: string, recoveries: nat, marker: bool,
                                              origin: Option<string>)
    requires WithinLimit(s, recoveries)
    ensures var r := DocumentLoop(body, s, recoveries, marker, origin);
            WithinLimit(r.rest, r.recoveries) && ParseErrors(r.value) + recoveries == ParseErrors(body) + r.recoveries
    decreases |s|
  {
    if s != "" {
      if IsMagicComment(Lex(s)) {
        var c := ParseComment(s);
        var first := ItemBlock(CommentItem(c.value));
        CommentProgress(s);
        ExclusionLoopCounts([first], c.rest, recoveries, marker);
        var exclusion := Exclusion(ExclusionLoop([first], c.rest, recoveries, marker).value, origin);
        TotalOne(UnparsedInBlock, first);
        TotalAppend(UnparsedInTop, body, [exclusion]);
        TotalOne(UnparsedInTop, exclusion);
      } else {
        var step := BlockStep(s, recoveries, marker);
        BlockStepCounts(s, recoveries, marker);
        BlockStepProgress(s, recoveries, marker);
        DocumentLoopCounts(body + AsTops(step.value), step.rest, step.recoveries, marker, origin);
        AsTopsCounts(step.value);
        TotalAppend(UnparsedInTop, body, AsTops(step.value));
      }
    }
  }

  lemma LiftedCounts(top: Top)
    ensures ParseErrors(Lifted(top)) == UnparsedInTop(top)
  {
    if top.Plain? && top.block.SectionBlock? {
      var body := top.block.body;
      var n := SectionKeeps(body);
      var section := Plain(SectionBlock(top.block.name, body[..n]));
      AsBlocksCounts(body[n..]);
      AsTopsCounts(AsBlocks(body[n..]));
      TotalAppend(UnparsedInTop, [section], AsTops(AsBlocks(body[n..])));
      TotalOne(UnparsedInTop, section);
      TotalAppend(UnparsedInItem, body[..n], body[n..]);
      assert body == body[..n] + body[n..];
    } else {
      TotalOne(UnparsedInTop, top);
    }
  }

  lemma {:induction false} PostProcessCounts(doc: Document)
    ensures ParseErrors(PostProcess(doc)) == ParseErrors(doc)
  {
    if doc != [] {
      PostProcessCounts(doc[1..]);
      LiftedCounts(doc[0]);
      TotalAppend(UnparsedInTop, Lifted(doc[0]), PostProcess(doc[1..]));
    }
  }

  /** For every text, one unparsed node for each recovery and never more than the limit and one. */
  lemma RecoveryIsBounded(buf: string, marker: bool, origin: Option<string>)
    ensures ParseErrors(Parse(buf, marker, origin)) == DocumentLoop([], buf, 0, marker, origin).recoveries
    ensures ParseErrors(Parse(buf, marker, origin)) <= MAX_RECOVERIES + 1
  {
    DocumentLoopCounts([], buf, 0, marker, origin);
    PostProcessCounts(DocumentLoop([], buf, 0, marker, origin).value);
  }
}
