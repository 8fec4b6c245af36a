/** The parser's methods, working on a shared tokenizer and on growing node lists. Each is proved to compute the
    grammar function of the text it starts at. */
module ConfigParser {
  import opened Text
  import opened ConfigTokens
  import opened ConfigTree
  import opened ConfigTokenizer
  import G = ConfigGrammar
  import E = ConfigValueEnd

  /** What parsing an option gives back, or the reason of the syntax error it raises. */
  datatype OptionOutcome =
    | ParsedOption(item: Item)
    | Raised(reason: string)

  class Parser {
    const errorMarker: bool
    var origin: Option<string>
    var recoveries: nat

    constructor (errorMarker: bool)
      ensures this.errorMarker == errorMarker
    {
      this.errorMarker := errorMarker;
      origin := None;
      recoveries := 0;
    }

    method ParseComment(t: Tokenizer) returns (parts: seq<CommentPart>)
      requires t.Valid() && t.Rest() != "" && Lex(t.Rest()).kind == Comment
      modifies t
      ensures t.Valid()
      ensures G.ParseComment(old(t.Rest())) == G.Parsed(parts, t.Rest())
    {
      var first := t.Take(Comment);
      var current := first.token.text;
      parts := [];
      var peek := t.Peek();
      while peek.Some?
        invariant t.Valid()
        invariant peek.None? <==> t.Rest() == ""
        invariant peek.Some? ==> peek.value.token == Lex(t.Rest())
        invariant G.CommentLoop(parts, current, t.Rest()) == G.ParseComment(old(t.Rest()))
        decreases |t.Rest()|
      {
        var kind := peek.value.token.kind;
        if kind == Whitespace {
          if '\n' in peek.value.token.text {
            break;
          }
          var space := t.Take(Whitespace);
          current := current + space.token.text;
        } else if kind == Placeholder {
          if current != "" {
            parts := parts + [CommentText(current)];
            current := "";
          }
          var placeholder := t.Take(Placeholder);
          parts := parts + [CommentPlaceholder(G.Inner(placeholder.token.text))];
        } else {
          var next := t.Next();
          current := current + next.value.token.text;
        }
        peek := t.Peek();
      }
      if current != "" {
        parts := parts + [CommentText(current)];
      }
    }

    /** The balance kept while a value is read. */
    method ScanBalance(b: G.Balance, s: string) returns (r: G.Balance)
      ensures r == G.ScanBalance(b, s)
    {
      r := b;
      var i := 0;
      while i < |s|
        invariant 0 <= i <= |s|
        invariant G.ScanBalance(r, s[i..]) == G.ScanBalance(b, s)
      {
        assert s[i..][1..] == s[i + 1..];
        r := G.ScanChar(r, s[i]);
        i := i + 1;
      }
    }

    /** Moves the complete lines of the current entry into the value lines. */
    method SplitEntry(start: G.ValueState) returns (st: G.ValueState)
      ensures st == G.SplitEntry(start)
    {
      st := start;
      var idx := LineLength(st.entry);
      while idx < |st.entry|
        invariant idx == LineLength(st.entry)
        invariant G.SplitEntry(st) == G.SplitEntry(start)
        decreases |st.entry|
      {
        st := st.(lines := st.lines + [st.line + [Entry(st.entry[..idx + 1])]],
                  line := [],
                  entry := st.entry[idx + 1..]);
        idx := LineLength(st.entry);
      }
    }

    /** Takes a whitespace token, putting back what follows its first line break. */
    method TakeSpace(t: Tokenizer) returns (text: string)
      requires t.Valid() && t.Rest() != "" && Lex(t.Rest()).kind == Whitespace
      modifies t
      ensures t.Valid()
      ensures text == G.TakenSpace(Lex(old(t.Rest())).text)
      ensures t.Rest() == old(t.Rest())[|text|..]
    {
      ghost var rest := t.Rest();
      var taken := t.Take(Whitespace);
      text := taken.token.text;
      var m := G.BreakIndex(text);
      if 0 < m < |text| {
        PutBackFrom(t, text, m, rest);
        text := text[..m];
      }
    }

    /** Puts back what follows the first `m` characters of the text taken last. */
    method PutBackFrom(t: Tokenizer, text: string, m: nat, ghost rest: string)
      requires t.Valid() && t.nextToken.None? && 0 < m < |text|
      requires text <= rest && |rest| <= |t.buf| && rest == t.buf[|t.buf| - |rest|..]
      requires t.Rest() == rest[|text|..]
      modifies t
      ensures t.Valid() && t.Rest() == rest[m..]
    {
      UnreadTail(t.buf, rest, text, t.pos, m);
      t.Unread(text[m..]);
      PutBack(rest, text, m);
    }

    method ReadSpace(t: Tokenizer, start: G.ValueState) returns (st: G.ValueState)
      requires t.Valid() && t.Rest() != "" && Lex(t.Rest()).kind == Whitespace
      modifies t
      ensures t.Valid()
      ensures var text := G.TakenSpace(Lex(old(t.Rest())).text);
              st == G.AddSpace(start, text) && t.Rest() == old(t.Rest())[|text|..]
    {
      var text := TakeSpace(t);
      st := start;
      if st.lines == [] && st.line == [] && st.entry == "" {
        st := st.(line := [Space(text)]);
      } else {
        var balance := ScanBalance(st.balance, text);
        st := st.(entry := st.entry + text, balance := balance);
      }
      st := SplitEntry(st);
    }

    /** Takes a comment or a placeholder as a piece of its own. */
    method ReadPiece(t: Tokenizer, kind: Kind, start: G.ValueState) returns (st: G.ValueState)
      requires t.Valid() && t.Rest() != "" && Lex(t.Rest()).kind == kind
      requires kind == Comment || kind == Placeholder
      modifies t
      ensures t.Valid()
      ensures G.ValueStep(start, old(t.Rest()), false) == Some(G.Parsed(st, t.Rest()))
    {
      st := start;
      if st.entry != "" {
        st := st.(line := st.line + [Entry(st.entry)], entry := "");
      }
      if kind == Comment {
        G.CommentProgress(t.Rest());
        var comment := ParseComment(t);
        st := st.(line := st.line + [Remark(comment)]);
      } else {
        var placeholder := t.Take(Placeholder);
        st := st.(line := st.line + [Slot(G.Inner(placeholder.token.text))]);
      }
    }

    method ParseValue(t: Tokenizer, asIs: bool) returns (lines: seq<Line>)
      requires t.Valid()
      modifies t
      ensures t.Valid()
      ensures G.ParseValue(old(t.Rest()), asIs) == G.Parsed(lines, t.Rest())
      ensures t.Rest() == E.FirstEnd(E.Reading("", old(t.Rest())), asIs).rest
    {
      E.ValueEnds(t.Rest(), asIs);
      var st := G.EMPTY_VALUE;
      var peek := t.Peek();
      while peek.Some?
        invariant t.Valid()
        invariant peek.None? <==> t.Rest() == ""
        invariant peek.Some? ==> peek == t.nextToken && peek.value.token == Lex(t.Rest())
        invariant peek.Some? ==> t.slice == G.After(t.Rest(), peek.value.token)
        invariant G.ValueLoop(st, t.Rest(), asIs) == G.ParseValue(old(t.Rest()), asIs)
        decreases |t.Rest()|
      {
        var next := ReadToken(t, peek.value.token, st, asIs);
        if next.None? {
          break;
        }
        st := next.value;
        peek := t.Peek();
      }
      lines := FinishValue(st);
    }

    /** One round of the value loop; none when the value ends before the token. */
    method ReadToken(t: Tokenizer, token: Token, start: G.ValueState, asIs: bool) returns (r: Option<G.ValueState>)
      requires t.Valid() && t.Rest() != "" && token == Lex(t.Rest()) && t.slice == G.After(t.Rest(), token)
      modifies t
      ensures t.Valid()
      ensures r.None? ==> G.ValueStep(start, old(t.Rest()), asIs).None? && t.Rest() == old(t.Rest())
      ensures r.Some? ==> G.ValueStep(start, old(t.Rest()), asIs) == Some(G.Parsed(r.value, t.Rest()))
    {
      if token.kind == Whitespace {
        if G.EndsValue(start, token.text, t.slice, asIs) {
          return None;
        }
        var st := ReadSpace(t, start);
        r := Some(st);
      } else if !asIs && (token.kind == Comment || token.kind == Placeholder) {
        var st := ReadPiece(t, token.kind, start);
        r := Some(st);
      } else if asIs && token.kind == Section {
        r := None;
      } else {
        var st := ReadText(t, token, start, asIs);
        r := Some(st);
      }
    }

    /** Adds the text of a token to the current entry. */
    method ReadText(t: Tokenizer, token: Token, start: G.ValueState, asIs: bool) returns (st: G.ValueState)
      requires t.Valid() && t.Rest() != "" && token == Lex(t.Rest())
      modifies t
      ensures t.Valid() && t.Rest() == G.After(old(t.Rest()), token)
      ensures st == start.(entry := start.entry + token.text,
                           balance := if asIs && token.kind == Comment then start.balance
                                      else G.ScanBalance(start.balance, token.text))
    {
      var next := t.Next();
      var balance := start.balance;
      if !(asIs && token.kind == Comment) {
        balance := ScanBalance(balance, token.text);
      }
      st := start.(entry := start.entry + token.text, balance := balance);
    }

    method FinishValue(st: G.ValueState) returns (lines: seq<Line>)
      ensures lines == G.FinishValue(st)
    {
      lines := st.lines;
      var line := st.line;
      if st.entry != "" {
        line := line + [Entry(st.entry)];
      }
      if line != [] {
        lines := lines + [line];
      }
    }

    method ParseOption(t: Tokenizer) returns (r: OptionOutcome)
      requires t.Valid() && t.Rest() != "" && Lex(t.Rest()).kind == Word
      modifies t
      ensures t.Valid()
      ensures match G.ParseOption(old(t.Rest()))
              case Success(item, rest) => r == ParsedOption(item) && t.Rest() == rest
              case SyntaxError(reason) => r == Raised(reason)
    {
      var word := t.Take(Word);
      var name := word.token.text;
      var trailing := "";
      ghost var r1 := t.Rest();
      var peek := t.Peek();
      if peek.None? {
        return Raised("Unexpected end of file after '" + name + "'");
      }
      if peek.value.token.kind == Whitespace {
        var space := t.Take(Whitespace);
        trailing := space.token.text;
      }
      ghost var r2 := t.Rest();
      assert trailing == G.TrailingSpace(r1) && r2 == r1[|trailing|..];
      r := ParseAssignment(t, name, trailing);
    }

    /** The rest of an option, behind its name and the whitespace after it. */
    method ParseAssignment(t: Tokenizer, name: string, trailing: string) returns (r: OptionOutcome)
      requires t.Valid()
      modifies t
      ensures t.Valid()
      ensures var s := old(t.Rest());
              if s == "" || Lex(s).kind != AssignOp then r == Raised("Expected ':' or '=' after '" + name + "'")
              else
                var v := G.ParseValue(G.After(s, Lex(s)), "gcode" <= name);
                r == ParsedOption(OptionItem(name, trailing, Lex(s).text, v.value)) && t.Rest() == v.rest
    {
      var peek := t.Peek();
      if peek.None? || peek.value.token.kind != AssignOp {
        return Raised("Expected ':' or '=' after '" + name + "'");
      }
      var op := t.Take(AssignOp);
      var lines := ParseValue(t, "gcode" <= name);
      r := ParsedOption(OptionItem(name, trailing, op.token.text, lines));
    }

    /** Keeps the text of a failed construct and moves to where parsing can resume. */
    method Recover(t: Tokenizer, reason: string, startPos: nat) returns (items: seq<Item>)
      requires t.Valid() && startPos <= |t.buf|
      modifies `recoveries, t
      ensures t.Valid()
      ensures G.Recover(t.buf[startPos..], reason, old(recoveries), errorMarker)
           == G.Progress(items, t.Rest(), recoveries)
    {
      recoveries := recoveries + 1;
      var skipped := t.Resync(startPos, recoveries > G.MAX_RECOVERIES);
      items := G.RecoveredItems(skipped, reason, errorMarker);
    }

    /** One item that is a single token or a comment. */
    method ParseItem(t: Tokenizer, kind: Kind) returns (item: Item)
      requires t.Valid() && t.Rest() != "" && Lex(t.Rest()).kind == kind
      requires kind == Comment || G.SimpleItem(Lex(t.Rest())).Some?
      modifies t
      ensures t.Valid()
      ensures kind != Comment ==> G.SimpleItem(Lex(old(t.Rest()))) == Some(item)
                                  && t.Rest() == G.After(old(t.Rest()), Lex(old(t.Rest())))
      ensures kind == Comment ==> item.CommentItem?
                                  && G.ParseComment(old(t.Rest())) == G.Parsed(item.parts, t.Rest())
    {
      if kind == Comment {
        var parts := ParseComment(t);
        item := CommentItem(parts);
      } else {
        var taken := t.Take(kind);
        var text := taken.token.text;
        if kind == HiddenOptionComment {
          item := HiddenItem(text);
        } else if kind == Whitespace {
          item := SpaceItem(text);
        } else if kind == Placeholder {
          item := PlaceholderItem(G.Inner(text));
        } else {
          item := TemplateItem(text);
        }
      }
    }

    /** An option, or the recovery from what looked like one. */
    method ParseWord(t: Tokenizer, startPos: nat) returns (items: seq<Item>)
      requires t.Valid() && t.Rest() != "" && Lex(t.Rest()).kind == Word
      requires startPos <= |t.buf| && t.buf[startPos..] == t.Rest()
      modifies `recoveries, t
      ensures t.Valid()
      ensures G.SectionStep(old(t.Rest()), old(recoveries), errorMarker) == G.Progress(items, t.Rest(), recoveries)
    {
      var r := ParseOption(t);
      match r
      case ParsedOption(item) => items := [item];
      case Raised(reason) => items := Recover(t, reason, startPos);
    }

    /** One round of the section loop on the peeked token. */
    method ParseSectionItem(t: Tokenizer, peek: Located) returns (items: seq<Item>)
      requires t.Valid() && t.Rest() != ""
      requires peek == Located(Lex(t.Rest()), |t.buf| - |t.Rest()|)
      modifies `recoveries, t
      ensures t.Valid()
      ensures G.SectionStep(old(t.Rest()), old(recoveries), errorMarker) == G.Progress(items, t.Rest(), recoveries)
    {
      assert t.buf[peek.pos..] == t.Rest();
      if peek.token.kind == Word {
        items := ParseWord(t, peek.pos);
      } else {
        items := ParseNonWord(t, peek);
      }
    }

    /** A section's item that is no option. */
    method ParseNonWord(t: Tokenizer, peek: Located) returns (items: seq<Item>)
      requires t.Valid() && t.Rest() != "" && peek.token == Lex(t.Rest()) && peek.token.kind != Word
      requires peek.pos <= |t.buf| && t.buf[peek.pos..] == t.Rest()
      modifies `recoveries, t
      ensures t.Valid()
      ensures G.SectionStep(old(t.Rest()), old(recoveries), errorMarker) == G.Progress(items, t.Rest(), recoveries)
    {
      var kind := peek.token.kind;
      if kind == Comment || kind == HiddenOptionComment || kind == Whitespace || kind == Placeholder
         || kind == Template {
        var item := ParseItem(t, kind);
        items := [item];
      } else {
        UnexpectedStep(t.Rest(), recoveries, errorMarker);
        items := RecoverUnexpected(t, peek);
      }
    }

    /** Recovers from a token that starts nothing. */
    method RecoverUnexpected(t: Tokenizer, peek: Located) returns (items: seq<Item>)
      requires t.Valid() && peek.pos <= |t.buf| && t.buf[peek.pos..] == t.Rest()
      modifies `recoveries, t
      ensures t.Valid()
      ensures G.Recover(old(t.Rest()), G.UnexpectedToken(peek.token), old(recoveries), errorMarker)
           == G.Progress(items, t.Rest(), recoveries)
    {
      items := Recover(t, G.UnexpectedToken(peek.token), peek.pos);
    }

    method ParseSection(t: Tokenizer) returns (block: Block)
      requires t.Valid() && t.Rest() != "" && Lex(t.Rest()).kind == Section
      modifies `recoveries, t
      ensures t.Valid()
      ensures G.ParseSection(old(t.Rest()), old(recoveries), errorMarker) == G.Progress(block, t.Rest(), recoveries)
    {
      var header := t.Take(Section);
      var body := [];
      ghost var start := t.Rest();
      var peek := t.Peek();
      while peek.Some? && peek.value.token.kind != Section
        invariant t.Valid()
        invariant peek.None? <==> t.Rest() == ""
        invariant peek.Some? ==> peek.value == Located(Lex(t.Rest()), |t.buf| - |t.Rest()|)
        invariant G.SectionLoop(body, t.Rest(), recoveries, errorMarker)
               == G.SectionLoop([], start, old(recoveries), errorMarker)
        decreases |t.Rest()|
      {
        if G.IsMagicComment(peek.value.token) {
          break;
        }
        G.SectionStepProgress(t.Rest(), recoveries, errorMarker);
        var items := ParseSectionItem(t, peek.value);
        body := body + items;
        peek := t.Peek();
      }
      block := SectionBlock(G.Inner(header.token.text), body);
    }

    /** One construct outside every section. */
    method ParseRegular(t: Tokenizer, peek: Located) returns (blocks: seq<Block>)
      requires t.Valid() && t.Rest() != ""
      requires peek == Located(Lex(t.Rest()), |t.buf| - |t.Rest()|)
      modifies `recoveries, t
      ensures t.Valid()
      ensures G.BlockStep(old(t.Rest()), old(recoveries), errorMarker) == G.Progress(blocks, t.Rest(), recoveries)
    {
      assert t.buf[peek.pos..] == t.Rest();
      if peek.token.kind == Section {
        var block := ParseSection(t);
        blocks := [block];
      } else {
        blocks := ParseNonSection(t, peek);
      }
    }

    /** An item outside every section. */
    method ParseNonSection(t: Tokenizer, peek: Located) returns (blocks: seq<Block>)
      requires t.Valid() && t.Rest() != "" && peek.token == Lex(t.Rest()) && peek.token.kind != Section
      requires peek.pos <= |t.buf| && t.buf[peek.pos..] == t.Rest()
      modifies `recoveries, t
      ensures t.Valid()
      ensures G.BlockStep(old(t.Rest()), old(recoveries), errorMarker) == G.Progress(blocks, t.Rest(), recoveries)
    {
      var kind := peek.token.kind;
      if kind == Comment || kind == HiddenOptionComment || kind == Whitespace || kind == Placeholder
         || kind == Template {
        var item := ParseItem(t, kind);
        blocks := [ItemBlock(item)];
      } else {
        var items := RecoverUnexpected(t, peek);
        blocks := G.AsBlocks(items);
      }
    }

    /** The magic comment and everything after it. */
    method ParseExclusion(t: Tokenizer) returns (body: seq<Block>)
      requires t.Valid() && t.Rest() != "" && Lex(t.Rest()).kind == Comment
      modifies `recoveries, t
      ensures t.Valid()
      ensures var c := G.ParseComment(old(t.Rest()));
              G.ExclusionLoop([ItemBlock(CommentItem(c.value))], c.rest, old(recoveries), errorMarker)
              == G.Progress(body, t.Rest(), recoveries)
    {
      var comment := ParseComment(t);
      body := [ItemBlock(CommentItem(comment))];
      ghost var start, first := t.Rest(), body;
      var peek := t.Peek();
      while peek.Some?
        invariant t.Valid()
        invariant peek.None? <==> t.Rest() == ""
        invariant peek.Some? ==> peek.value == Located(Lex(t.Rest()), |t.buf| - |t.Rest()|)
        invariant G.ExclusionLoop(body, t.Rest(), recoveries, errorMarker)
               == G.ExclusionLoop(first, start, old(recoveries), errorMarker)
        decreases |t.Rest()|
      {
        G.BlockStepProgress(t.Rest(), recoveries, errorMarker);
        var blocks := ParseRegular(t, peek.value);
        body := body + blocks;
        peek := t.Peek();
      }
    }

    method ParseDocument(t: Tokenizer) returns (doc: Document)
      requires t.Valid()
      modifies `recoveries, t
      ensures t.Valid()
      ensures G.DocumentLoop([], old(t.Rest()), old(recoveries), errorMarker, origin)
              == G.Progress(doc, t.Rest(), recoveries)
    {
      doc := [];
      var peek := t.Peek();
      while peek.Some?
        invariant t.Valid()
        invariant peek.None? <==> t.Rest() == ""
        invariant peek.Some? ==> peek.value == Located(Lex(t.Rest()), |t.buf| - |t.Rest()|)
        invariant G.DocumentLoop(doc, t.Rest(), recoveries, errorMarker, origin)
               == G.DocumentLoop([], old(t.Rest()), old(recoveries), errorMarker, origin)
        decreases |t.Rest()|
      {
        if G.IsMagicComment(peek.value.token) {
          var body := ParseExclusion(t);
          doc := doc + [Exclusion(body, origin)];
          return;
        }
        G.BlockStepProgress(t.Rest(), recoveries, errorMarker);
        var blocks := ParseRegular(t, peek.value);
        doc := doc + G.AsTops(blocks);
        peek := t.Peek();
      }
    }

    /** How many items a section keeps: up to its last option and one whitespace item after it. */
    method KeptItems(body: seq<Item>) returns (idx: nat)
      ensures idx == G.SectionKeeps(body)
    {
      idx := |body|;
      assert body[..idx] == body;
      while idx > 0 && !body[idx - 1].OptionItem?
        invariant 0 <= idx <= |body|
        invariant G.AfterLastOption(body[..idx]) == G.AfterLastOption(body)
      {
        assert body[..idx][..idx - 1] == body[..idx - 1];
        idx := idx - 1;
      }
      if idx < |body| && body[idx].SpaceItem? {
        idx := idx + 1;
      }
    }

    /** Moves what a section does not keep up to the document. */
    method PostProcess(doc: Document) returns (r: Document)
      ensures r == G.PostProcess(doc)
    {
      r := [];
      var k := 0;
      while k < |doc|
        invariant 0 <= k <= |doc|
        invariant r + G.PostProcess(doc[k..]) == G.PostProcess(doc)
      {
        PostProcessStep(doc, r, k);
        if doc[k].Plain? && doc[k].block.SectionBlock? {
          var section := doc[k].block;
          var idx := KeptItems(section.body);
          r := r + ([Plain(SectionBlock(section.name, section.body[..idx]))]
                    + G.AsTops(G.AsBlocks(section.body[idx..])));
        } else {
          r := r + [doc[k]];
        }
        k := k + 1;
      }
    }

    method Parse(buffer: string, origin: Option<string>) returns (doc: Document)
      modifies this
      ensures doc == G.Parse(buffer, errorMarker, origin)
    {
      this.origin := origin;
      recoveries := 0;
      var t := new Tokenizer(buffer);
      doc := ParseDocument(t);
      doc := PostProcess(doc);
    }
  }

  lemma UnexpectedStep(s: string, recoveries: nat, marker: bool)
    requires s != "" && G.SimpleItem(Lex(s)).None? && Lex(s).kind != Comment && Lex(s).kind != Word
    ensures G.SectionStep(s, recoveries, marker)
            == G.Recover(s, G.UnexpectedToken(Lex(s)), recoveries, marker)
  {
  }

  lemma PostProcessStep(doc: Document, r: Document, k: nat)
    requires k < |doc|
    ensures r + G.Lifted(doc[k]) + G.PostProcess(doc[k + 1..]) == r + G.PostProcess(doc[k..])
  {
    var rest := doc[k..];
    assert rest[0] == doc[k] && rest[1..] == doc[k + 1..];
    assert G.PostProcess(rest) == G.Lifted(rest[0]) + G.PostProcess(rest[1..]);
  }

  lemma UnreadTail(buf: string, s: string, text: string, pos: nat, m: nat)
    requires text <= s && pos <= |buf| && |s| <= |buf| && s == buf[|buf| - |s|..]
    requires s[|text|..] == buf[pos..]
    requires m <= |text|
    ensures |text[m..]| <= pos && buf[pos - |text[m..]|..pos] == text[m..]
  {
    assert pos == |buf| - |s| + |text|;
  }

  lemma PutBack(s: string, text: string, m: nat)
    requires text <= s && m <= |text|
    ensures text[m..] + s[|text|..] == s[m..]
  {
  }
}
