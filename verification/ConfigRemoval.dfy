/** Removing sections and exclusion blocks, and which section a lookup then finds. */
module ConfigRemoval {
  import opened Text
  import opened ConfigTree
  import opened ConfigTokens
  import opened ConfigLookup
  import opened ConfigEdit
  import opened ConfigValues
  import G = ConfigGrammar
  import S = ConfigSections

  function WithoutBlocks(blocks: seq<Block>, name: string): seq<Block> {
    if blocks == [] then []
    else (if IsSection(blocks[0], name) then [] else [blocks[0]]) + WithoutBlocks(blocks[1..], name)
  }

  /** `remove_section`: pruned at the top level and inside exclusion blocks. */
  function WithoutSection(doc: Document, name: string): Document {
    if doc == [] then []
    else
      (match doc[0]
       case Plain(block) => if IsSection(block, name) then [] else [doc[0]]
       case Exclusion(body, origin) => [Exclusion(WithoutBlocks(body, name), origin)])
      + WithoutSection(doc[1..], name)
  }

  lemma {:induction false} WithoutBlocksAppend(xs: seq<Block>, ys: seq<Block>, name: string)
    ensures WithoutBlocks(xs + ys, name) == WithoutBlocks(xs, name) + WithoutBlocks(ys, name)
  {
    if xs == [] {
      assert xs + ys == ys;
    } else {
      WithoutBlocksAppend(xs[1..], ys, name);
      assert (xs + ys)[1..] == xs[1..] + ys;
    }
  }

  lemma OneMoreBlock(blocks: seq<Block>, j: nat, name: string)
    requires j < |blocks|
    ensures WithoutBlocks(blocks[..j + 1], name)
            == WithoutBlocks(blocks[..j], name) + if IsSection(blocks[j], name) then [] else [blocks[j]]
  {
    assert blocks[..j + 1] == blocks[..j] + [blocks[j]];
    WithoutBlocksAppend(blocks[..j], [blocks[j]], name);
    assert [blocks[j]][1..] == [];
  }

  lemma {:induction false} WithoutSectionAppend(xs: Document, ys: Document, name: string)
    ensures WithoutSection(xs + ys, name) == WithoutSection(xs, name) + WithoutSection(ys, name)
  {
    if xs == [] {
      assert xs + ys == ys;
    } else {
      WithoutSectionAppend(xs[1..], ys, name);
      assert (xs + ys)[1..] == xs[1..] + ys;
    }
  }

  lemma OneTop(top: Top, name: string)
    ensures WithoutSection([top], name) ==
            if top.Exclusion? then [top.(body := WithoutBlocks(top.body, name))]
            else if IsSection(top.block, name) then [] else [top]
  {
    assert [top][1..] == [];
  }

  lemma OneMoreTop(doc: Document, k: nat, name: string)
    requires k < |doc|
    ensures WithoutSection(doc[..k + 1], name) == WithoutSection(doc[..k], name) + WithoutSection([doc[k]], name)
    ensures |WithoutSection([doc[k]], name)| == if doc[k].Plain? && IsSection(doc[k].block, name) then 0 else 1
  {
    assert doc[..k + 1] == doc[..k] + [doc[k]];
    WithoutSectionAppend(doc[..k], [doc[k]], name);
    OneTop(doc[k], name);
  }

  // ------------------------------------------------------------------------- the section a lookup finds

  /** The last section of a name, found from the front. */
  function LastOf(blocks: seq<Block>, name: string): Option<Block> {
    if blocks == [] then None
    else if LastOf(blocks[1..], name).Some? then LastOf(blocks[1..], name)
    else if IsSection(blocks[0], name) then Some(blocks[0])
    else None
  }

  function LastOfTop(top: Top, name: string): Option<Block> {
    match top
    case Plain(block) => if IsSection(block, name) then Some(block) else None
    case Exclusion(body, _) => LastOf(body, name)
  }

  function LastSection(doc: Document, name: string): Option<Block> {
    if doc == [] then None
    else if LastSection(doc[1..], name).Some? then LastSection(doc[1..], name)
    else LastOfTop(doc[0], name)
  }

  lemma {:induction false} LastOfIs(blocks: seq<Block>, name: string)
    ensures LastOf(blocks, name) ==
              match LastBlock(blocks, name) case Some(j) => Some(blocks[j]) case None => None
  {
    if blocks != [] {
      var tail := blocks[1..];
      LastOfIs(tail, name);
      match LastBlock(tail, name)
      case Some(j) =>
        assert forall m | j + 1 < m < |blocks| :: blocks[m] == tail[m - 1];
        LastBlockIs(blocks, name, j + 1);
      case None =>
        assert forall m | 1 <= m < |blocks| :: blocks[m] == tail[m - 1];
        if IsSection(blocks[0], name) {
          LastBlockIs(blocks, name, 0);
        }
    }
  }

  lemma {:induction false} LastSectionAppend(a: Document, b: Document, name: string)
    ensures LastSection(a + b, name) ==
              if LastSection(b, name).Some? then LastSection(b, name) else LastSection(a, name)
  {
    if a == [] {
      assert a + b == b;
    } else {
      LastSectionAppend(a[1..], b, name);
      assert (a + b)[1..] == a[1..] + b;
    }
  }

  lemma LastOfTopIs(top: Top, i: nat, name: string)
    ensures LastOfTop(top, name) ==
              match LastInTop(top, i, name)
              case None => None
              case Some(r) => Some(if r.AtTop? then top.block else top.body[r.j])
  {
    if top.Exclusion? {
      LastOfIs(top.body, name);
    }
  }

  lemma {:induction false} LastSectionIs(doc: Document, name: string)
    ensures LastSection(doc, name) ==
              match FindSection(doc, name) case Some(r) => Some(SectionAt(doc, r)) case None => None
    decreases |doc|
  {
    var n := |doc|;
    if n > 0 {
      var front := doc[..n - 1];
      assert doc == front + [doc[n - 1]];
      LastSectionAppend(front, [doc[n - 1]], name);
      assert LastSection([doc[n - 1]], name) == LastOfTop(doc[n - 1], name) by {
        assert [doc[n - 1]][1..] == [];
      }
      LastOfTopIs(doc[n - 1], n - 1, name);
      LastSectionIs(front, name);
      if FindSection(front, name).Some? {
        var r := FindSection(front, name).value;
        assert doc[r.i] == front[r.i];
      }
    }
  }

  function OptionOf(section: Option<Block>, option: string): Option<Item>
    requires section.Some? ==> section.value.SectionBlock?
  {
    match section
    case None => None
    case Some(block) =>
      match FindOption(block.body, option) case None => None case Some(k) => Some(block.body[k])
  }

  /** A lookup depends on the last section of the name alone. */
  lemma LookUpIs(doc: Document, section: string, option: string)
    ensures LastSection(doc, section).Some? ==> LastSection(doc, section).value.SectionBlock?
    ensures LookUp(doc, section, option) == OptionOf(LastSection(doc, section), option)
  {
    LastSectionIs(doc, section);
  }

  lemma SameSection(doc: Document, doc': Document, section: string, option: string)
    requires LastSection(doc, section) == LastSection(doc', section)
    ensures LookUp(doc, section, option) == LookUp(doc', section, option)
  {
    LookUpIs(doc, section, option);
    LookUpIs(doc', section, option);
  }

  lemma {:induction false} WithoutBlocksLast(blocks: seq<Block>, name: string, other: string)
    ensures LastOf(WithoutBlocks(blocks, name), other) == if other == name then None else LastOf(blocks, other)
  {
    if blocks != [] {
      WithoutBlocksLast(blocks[1..], name, other);
      var r := WithoutBlocks(blocks, name);
      if !IsSection(blocks[0], name) {
        assert r[1..] == WithoutBlocks(blocks[1..], name);
      } else {
        assert r == WithoutBlocks(blocks[1..], name);
      }
    }
  }

  /** After a removal no section of the name is left, and every other one is still found. */
  lemma {:induction false} WithoutSectionLast(doc: Document, name: string, other: string)
    ensures LastSection(WithoutSection(doc, name), other) == if other == name then None else LastSection(doc, other)
  {
    if doc != [] {
      WithoutSectionLast(doc[1..], name, other);
      var rest := WithoutSection(doc[1..], name);
      match doc[0]
      case Plain(block) =>
        if !IsSection(block, name) {
          assert WithoutSection(doc, name)[1..] == rest;
        } else {
          assert WithoutSection(doc, name) == rest;
        }
      case Exclusion(body, origin) =>
        WithoutBlocksLast(body, name, other);
        assert WithoutSection(doc, name)[1..] == rest;
    }
  }

  /** Removing a section: its name is gone, every option of every other section reads as before. */
  lemma RemovalReads(doc: Document, name: string, section: string, option: string)
    ensures !HasSection(WithoutSection(doc, name), name)
    ensures section != name ==> LookUp(WithoutSection(doc, name), section, option) == LookUp(doc, section, option)
  {
    WithoutSectionLast(doc, name, name);
    LastSectionIs(WithoutSection(doc, name), name);
    if section != name {
      WithoutSectionLast(doc, name, section);
      SameSection(WithoutSection(doc, name), doc, section, option);
    }
  }

  // ------------------------------------------------------------------------------ well laid out documents

  lemma {:induction false} WithoutBlocksGood(blocks: seq<Block>, name: string)
    requires GoodBlocks(blocks)
    ensures GoodBlocks(WithoutBlocks(blocks, name))
  {
    if blocks != [] {
      assert GoodBlock(blocks[0]);
      assert GoodBlocks(blocks[1..]);
      WithoutBlocksGood(blocks[1..], name);
    }
  }

  lemma {:induction false} WithoutSectionGood(doc: Document, name: string)
    requires GoodDocument(doc)
    ensures GoodDocument(WithoutSection(doc, name))
  {
    if doc != [] {
      assert GoodTop(doc[0]);
      assert GoodDocument(doc[1..]);
      WithoutSectionGood(doc[1..], name);
      if doc[0].Exclusion? {
        WithoutBlocksGood(doc[0].body, name);
      }
    }
  }

  lemma GoodConcat(a: Document, b: Document)
    requires GoodDocument(a) && GoodDocument(b)
    ensures GoodDocument(a + b)
  {
  }

  lemma AddSectionGood(doc: Document, name: string, comment: string, atTop: bool)
    requires GoodDocument(doc)
    ensures GoodDocument(S.AddSection(doc, name, comment, atTop))
  {
    if !HasSection(doc, name) {
      var at, nodes := S.Insertion(doc, name, comment, atTop).at, S.Insertion(doc, name, comment, atTop).nodes;
      var section := S.NewSection(name, comment);
      assert GoodDocument(section) by {
        assert forall i | 0 <= i < |section| :: GoodTop(section[i]);
      }
      assert GoodDocument([S.NEWLINE]);
      GoodConcat(section, [S.NEWLINE]);
      GoodConcat([S.NEWLINE], section);
      GoodConcat(doc[..at], nodes);
      GoodConcat(doc[..at] + nodes, doc[at..]);
    }
  }

  lemma StepItemsGood(s: string, recoveries: nat, marker: bool)
    requires s != ""
    ensures GoodItems(G.SectionStep(s, recoveries, marker).value)
  {
    var t := Lex(s);
    if t.kind == Word && G.ParseOption(s).Success? {
      OptionGood(s);
      OneGood(G.ParseOption(s).value);
    } else if t.kind == Word {
      RecoveredGood(s, G.ParseOption(s).reason, recoveries, marker);
    } else if t.kind == Comment {
      OneGood(CommentItem(G.ParseComment(s).value));
    } else if G.SimpleItem(t).Some? {
      OneGood(G.SimpleItem(t).value);
    } else {
      RecoveredGood(s, G.UnexpectedToken(t), recoveries, marker);
    }
  }

  lemma OneGood(item: Item)
    requires GoodItem(item)
    ensures GoodItems([item])
  {
  }

  lemma RecoveredGood(s: string, reason: string, recoveries: nat, marker: bool)
    ensures GoodItems(G.Recover(s, reason, recoveries, marker).value)
  {
    var items := G.Recover(s, reason, recoveries, marker).value;
    assert forall i | 0 <= i < |items| :: !items[i].OptionItem?;
  }

  lemma OptionGood(s: string)
    requires s != "" && G.ParseOption(s).Success?
    ensures GoodItem(G.ParseOption(s).value)
  {
    var r1 := G.After(s, Lex(s));
    var r2 := r1[|G.TrailingSpace(r1)|..];
    ParsedValueGood(G.After(r2, Lex(r2)), "gcode" <= Lex(s).text);
  }

  lemma {:induction false} SectionLoopGood(body: seq<Item>, s: string, recoveries: nat, marker: bool)
    requires GoodItems(body)
    ensures GoodItems(G.SectionLoop(body, s, recoveries, marker).value)
    decreases |s|
  {
    if !G.SectionEnds(s) {
      var step := G.SectionStep(s, recoveries, marker);
      StepItemsGood(s, recoveries, marker);
      G.SectionStepProgress(s, recoveries, marker);
      SectionLoopGood(body + step.value, step.rest, step.recoveries, marker);
    }
  }

  lemma {:induction false} AsBlocksGood(items: seq<Item>)
    requires GoodItems(items)
    ensures GoodBlocks(G.AsBlocks(items))
  {
    if items != [] {
      assert GoodItem(items[0]);
      assert GoodItems(items[1..]);
      AsBlocksGood(items[1..]);
    }
  }

  lemma {:induction false} AsTopsGood(blocks: seq<Block>)
    requires GoodBlocks(blocks)
    ensures GoodDocument(G.AsTops(blocks))
  {
    if blocks != [] {
      assert GoodBlock(blocks[0]);
      assert GoodBlocks(blocks[1..]);
      AsTopsGood(blocks[1..]);
    }
  }

  lemma BlockStepGood(s: string, recoveries: nat, marker: bool)
    requires s != ""
    ensures GoodBlocks(G.BlockStep(s, recoveries, marker).value)
  {
    var t := Lex(s);
    if t.kind == ConfigTokens.Section {
      SectionLoopGood([], G.After(s, t), recoveries, marker);
    } else if G.SimpleItem(t).None? && t.kind != Comment {
      RecoveredGood(s, G.UnexpectedToken(t), recoveries, marker);
      AsBlocksGood(G.Recover(s, G.UnexpectedToken(t), recoveries, marker).value);
    }
  }

  lemma {:induction false} ExclusionLoopGood(body: seq<Block>, s: string, recoveries: nat, marker: bool)
    requires GoodBlocks(body)
    ensures GoodBlocks(G.ExclusionLoop(body, s, recoveries, marker).value)
    decreases |s|
  {
    if s != "" {
      var step := G.BlockStep(s, recoveries, marker);
      BlockStepGood(s, recoveries, marker);
      G.BlockStepProgress(s, recoveries, marker);
      ExclusionLoopGood(body + step.value, step.rest, step.recoveries, marker);
    }
  }

  lemma {:induction false} DocumentLoopGood(body: Document, s: string, recoveries: nat, marker: bool,
                                            origin: Option<string>)
    requires GoodDocument(body)
    ensures GoodDocument(G.DocumentLoop(body, s, recoveries, marker, origin).value)
    decreases |s|
  {
    if s != "" {
      if G.IsMagicComment(Lex(s)) {
        var c := G.ParseComment(s);
        ExclusionLoopGood([ItemBlock(CommentItem(c.value))], c.rest, recoveries, marker);
      } else {
        var step := G.BlockStep(s, recoveries, marker);
        BlockStepGood(s, recoveries, marker);
        AsTopsGood(step.value);
        G.BlockStepProgress(s, recoveries, marker);
        DocumentLoopGood(body + G.AsTops(step.value), step.rest, step.recoveries, marker, origin);
      }
    }
  }

  lemma {:induction false} PostProcessGood(doc: Document)
    requires GoodDocument(doc)
    ensures GoodDocument(G.PostProcess(doc))
  {
    if doc != [] {
      assert GoodTop(doc[0]);
      assert GoodDocument(doc[1..]);
      PostProcessGood(doc[1..]);
      if doc[0].Plain? && doc[0].block.SectionBlock? {
        var body := doc[0].block.body;
        var n := G.SectionKeeps(body);
        assert GoodItems(body);
        assert GoodItems(body[..n]) && GoodItems(body[n..]);
        AsBlocksGood(body[n..]);
        AsTopsGood(G.AsBlocks(body[n..]));
      }
    }
  }

  /** Every option of a parsed document is well laid out. */
  lemma ParsedDocumentGood(buf: string, marker: bool, origin: Option<string>)
    ensures GoodDocument(G.Parse(buf, marker, origin))
  {
    DocumentLoopGood([], buf, 0, marker, origin);
    PostProcessGood(G.DocumentLoop([], buf, 0, marker, origin).value);
  }
}
