/** The config builder: a document that is read, looked up and edited in place. */
module ConfigBuilder {
  import opened Text
  import opened ConfigTree
  import opened ConfigLookup
  import opened ConfigParser
  import opened ConfigTokenizer
  import G = ConfigGrammar
  import E = ConfigEdit
  import O = ConfigOverwrite
  import S = ConfigSections
  import R = ConfigRemoval
  import V = ConfigValues

  class ConfigBuilder {
    var document: Document
    const parser: Parser

    ghost predicate Valid()
      reads this
    {
      E.GoodDocument(document)
    }

    constructor (parser: Parser)
      ensures Valid() && document == [] && this.parser == parser
    {
      this.parser := parser;
      document := [];
    }

    /** Parses a file's text and appends it to the document. */
    method Read(buffer: string, origin: Option<string>)
      requires Valid()
      modifies this, parser
      ensures Valid()
      ensures document == old(document) + G.Parse(buffer, parser.errorMarker, origin)
    {
      var doc := parser.Parse(buffer, origin);
      R.ParsedDocumentGood(buffer, parser.errorMarker, origin);
      document := document + doc;
    }

    method HasSection(section: string) returns (r: bool)
      ensures r == ConfigLookup.HasSection(document, section)
    {
      r := FindSection(document, section).Some?;
    }

    method HasOption(section: string, option: string) returns (r: bool)
      ensures r == ConfigLookup.HasOption(document, section, option)
    {
      r := LookUp(document, section, option).Some?;
    }

    /** The value with comments left out and stripped; no result stands for the caller's default. */
    method Get(section: string, option: string) returns (r: Option<string>)
      ensures r == ConfigLookup.Get(document, section, option)
    {
      var found := LookUp(document, section, option);
      if found.None? || found.value.lines == [] {
        return None;
      }
      var value := ValueOf(found.value.lines);
      r := Some(Strip(value));
    }

    /** The text of value lines, comments left out. */
    static method ValueOf(lines: seq<Line>) returns (value: string)
      ensures value == LinesValue(lines)
    {
      value := "";
      var i := 0;
      while i < |lines|
        invariant 0 <= i <= |lines|
        invariant value == LinesValue(lines[..i])
      {
        RenderPush(PieceValue, lines[..i], lines[i]);
        assert lines[..i + 1] == lines[..i] + [lines[i]];
        value := value + LineValue(lines[i]);
        i := i + 1;
      }
      assert lines[..i] == lines;
    }

    /** The first line and piece holding value text. */
    static method FindValueNode(lines: seq<Line>) returns (r: Option<(nat, nat)>)
      ensures r == E.FindTarget(lines)
    {
      var i := 0;
      while i < |lines|
        invariant 0 <= i <= |lines|
        invariant E.TargetFrom(lines, i) == E.FindTarget(lines)
      {
        var line := lines[i];
        var j := 0;
        while j < |line|
          invariant 0 <= j <= |line|
          invariant E.InkFrom(line, j) == E.FirstInk(line)
        {
          if IsInk(line[j]) {
            return Some((i, j));
          }
          j := j + 1;
        }
        i := i + 1;
      }
      r := None;
    }

    /** Writes a value over the old one, keeping the layout in front of it. */
    static method Overwrite(lines: seq<Line>, value: string) returns (r: seq<Line>)
      requires lines != []
      ensures r == E.Rewrite(lines, value)
      ensures O.Overwritten(lines, value, r)
    {
      var target := FindValueNode(lines);
      if target.None? {
        var line := lines[0];
        if line != [] && line[0].Remark? {
          line := [Entry(value)] + line;
        } else {
          line := line + [Entry(value)];
        }
        O.OverwriteIs(lines, value);
        return [line] + lines[1..];
      }
      var (i, j) := target.value;
      var text := lines[i][j].text;
      var written := lines[i][j := Entry(text[..BlankLength(text)] + value)];
      var kept: seq<Line> := [];
      var m := |lines|;
      assert lines[m..] == [];
      while m > i + 1
        invariant i + 1 <= m <= |lines|
        invariant kept == E.Retained(lines[m..])
      {
        m := m - 1;
        assert lines[m..][0] == lines[m] && lines[m..][1..] == lines[m + 1..];
        if !(lines[m] != [] && IsInk(lines[m][0])) {
          kept := [lines[m]] + kept;
        }
      }
      r := lines[..i] + [written] + kept;
      O.OverwriteIs(lines, value);
    }

    method ParseFresh(value: string) returns (lines: seq<Line>)
      ensures lines == G.ParseValue(value, false).value
    {
      var t := new Tokenizer(value);
      lines := parser.ParseValue(t, false);
    }

    method EditBody(start: seq<Item>, option: string, v: string) returns (body: seq<Item>)
      ensures body == E.EditedBody(start, option, v)
    {
      var k := FindOption(start, option);
      if k.Some? {
        var lines := start[k.value].lines;
        if lines != [] {
          lines := Overwrite(lines, v);
        } else {
          lines := ParseFresh(v);
        }
        body := start[k.value := start[k.value].(lines := lines)];
      } else {
        var lines := ParseFresh(" " + v);
        body := start + [OptionItem(option, "", E.DEFAULT_ASSIGN_OP, lines), SpaceItem("\n")];
      }
    }

    /** False when there is no such section. */
    method Set(section: string, option: string, value: Option<string>) returns (ok: bool)
      requires Valid()
      modifies this
      ensures Valid()
      ensures ok == E.Set(old(document), section, option, value).Some?
      ensures document == if ok then E.Set(old(document), section, option, value).value else old(document)
      ensures ConfigLookup.HasOption(old(document), section, option) ==>
                var v := Strip(if value.Some? then value.value else "");
                var before := ConfigLookup.LookUp(old(document), section, option).value.lines;
                && ok && ConfigLookup.HasOption(document, section, option)
                && var after := ConfigLookup.LookUp(document, section, option).value.lines;
                   if before == [] then after == G.ParseValue(v, false).value else O.Overwritten(before, v, after)
    {
      if ConfigLookup.HasOption(document, section, option) {
        O.SetOverwrites(document, section, option, value);
      }
      var v := Strip(if value.Some? then value.value else "");
      var found := FindSection(document, section);
      if found.None? {
        return false;
      }
      E.SetGood(document, section, option, value);
      var body := EditBody(SectionAt(document, found.value).body, option, v);
      document := WithBody(document, found.value, body);
      ok := true;
    }

    /** The last include section before index `end`. */
    static method LastIncludeBefore(doc: Document, end: nat) returns (last: Option<nat>)
      requires end <= |doc|
      ensures last == S.LastInclude(doc, end)
    {
      last := None;
      var i := 0;
      while i < end
        invariant 0 <= i <= end
        invariant last == S.LastInclude(doc, i)
      {
        if S.IsInclude(doc[i]) {
          last := Some(i);
        }
        i := i + 1;
      }
    }

    /** Adds a section that is not there yet: at the top, after the last include, or before SAVE_CONFIG. */
    method AddSection(name: string, comment: string, atTop: bool)
      requires Valid()
      modifies this
      ensures Valid()
      ensures document == S.AddSection(old(document), name, comment, atTop)
    {
      if FindSection(document, name).Some? {
        return;
      }
      R.AddSectionGood(document, name, comment, atTop);
      var nodes := S.NewSection(name, comment);
      var at := 0;
      if !atTop {
        var boundary := S.SaveIndex(document);
        at := if boundary.Some? then boundary.value else |document|;
        var last: Option<nat> := None;
        if "include " <= name {
          last := LastIncludeBefore(document, at);
        }
        if last.Some? {
          at := S.Min(S.AfterInclude(document, last.value), at);
        }
        nodes := if last.Some? || boundary.Some? then nodes + [S.NEWLINE] else [S.NEWLINE] + nodes;
      }
      document := document[..at] + nodes + document[at..];
    }

    /** Removes every section of a name, in exclusion blocks too, one after the other: none is left, and everything in
        other sections reads as before. */
    method RemoveSection(name: string)
      requires Valid()
      modifies this
      ensures Valid()
      ensures document == R.WithoutSection(old(document), name)
      ensures !ConfigLookup.HasSection(document, name)
      ensures forall s, o | s != name :: LookUp(document, s, o) == LookUp(old(document), s, o)
    {
      var i := 0;
      ghost var before := document;
      ghost var k := 0;
      while i < |document|
        invariant 0 <= k <= |before| && 0 <= i <= |document|
        invariant document[i..] == before[k..] && document[..i] == R.WithoutSection(before[..k], name)
        decreases |document| - i
      {
        R.OneMoreTop(before, k, name);
        var gone := PruneTop(i, name, before, k);
        k := k + 1;
        i := if gone then i else i + 1;
      }
      assert before[..k] == before && document[..i] == document;
      R.WithoutSectionGood(before, name);
      R.RemovalReads(before, name, name, "");
      forall s, o | s != name ensures LookUp(document, s, o) == LookUp(before, s, o) {
        R.RemovalReads(before, name, s, o);
      }
    }

    /** A top-level section of the name. */
    static predicate Goes(top: Top, name: string) {
      top.Plain? && IsSection(top.block, name)
    }

    /** Takes one node out of the document, or sections out of an exclusion block. */
    method PruneTop(i: nat, name: string, ghost before: Document, ghost k: nat) returns (gone: bool)
      requires i < |document| && k < |before| && document[i..] == before[k..]
      modifies this`document
      ensures var j := if gone then i else i + 1;
              j <= |document| && document[j..] == before[k + 1..]
              && document[..j] == old(document)[..i] + R.WithoutSection([before[k]], name)
    {
      R.OneTop(before[k], name);
      assert document[i] == before[k] && document[i + 1..] == before[k + 1..];
      gone := Goes(document[i], name);
      if gone {
        document := document[..i] + document[i + 1..];
      } else if document[i].Exclusion? {
        var body := Prune(document[i].body, name);
        document := document[..i] + [document[i].(body := body)] + document[i + 1..];
      }
    }

    /** The blocks that are not sections of the name. */
    static method Prune(blocks: seq<Block>, name: string) returns (r: seq<Block>)
      ensures r == R.WithoutBlocks(blocks, name)
    {
      r := [];
      var j := 0;
      while j < |blocks|
        invariant 0 <= j <= |blocks| && r == R.WithoutBlocks(blocks[..j], name)
      {
        R.OneMoreBlock(blocks, j, name);
        if !IsSection(blocks[j], name) {
          r := r + [blocks[j]];
        }
        j := j + 1;
      }
      assert blocks[..j] == blocks;
    }
  }
}
