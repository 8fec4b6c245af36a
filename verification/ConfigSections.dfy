/** Adding and removing sections without disturbing the block Klipper's SAVE_CONFIG owns. */
module ConfigSections {
  import opened Text
  import opened ConfigTree
  import opened ConfigLookup

  function DashLength(s: string): (n: nat)
    ensures n <= |s|
  {
    if s == "" || s[0] != '-' then 0 else 1 + DashLength(s[1..])
  }

  /** `<-+`, spaces, `SAVE_CONFIG`, spaces, `-+>`. */
  predicate IsSaveConfigBanner(s: string) {
    && "<-" <= s
    && var a := LStrip(s[1 + DashLength(s[1..])..]);
       && "SAVE_CONFIG" <= a
       && var b := LStrip(a[11..]);
          "-" <= b && ">" <= b[DashLength(b)..]
  }

  function PlainTextOf(parts: seq<CommentPart>): string {
    if parts == [] then ""
    else (if parts[0].CommentText? then parts[0].text else "") + PlainTextOf(parts[1..])
  }

  predicate IsSaveConfigText(s: string) {
    "#*#" <= s && IsSaveConfigBanner(LStrip(s[3..]))
  }

  predicate IsSaveConfig(top: Top) {
    IsCommentNode(top) && IsSaveConfigText(LStrip(PlainTextOf(top.block.item.parts)))
  }

  function FirstIndex(p: Top -> bool, doc: Document): (r: Option<nat>)
    ensures r.Some? ==> r.value < |doc| && p(doc[r.value])
    ensures r.Some? ==> forall i | 0 <= i < r.value :: !p(doc[i])
    ensures r.None? ==> forall i | 0 <= i < |doc| :: !p(doc[i])
  {
    if doc == [] then None
    else if p(doc[0]) then Some(0)
    else match FirstIndex(p, doc[1..]) case Some(i) => Some(i + 1) case None => None
  }

  /** `_save_config_index`: the first top-level SAVE_CONFIG comment. */
  function SaveIndex(doc: Document): Option<nat> {
    FirstIndex(IsSaveConfig, doc)
  }

  predicate IsInclude(top: Top) {
    top.Plain? && top.block.SectionBlock? && "include " <= top.block.name
  }

  /** Last include section before index `end`. */
  function LastInclude(doc: Document, end: nat): (r: Option<nat>)
    requires end <= |doc|
    ensures r.Some? ==> r.value < end && IsInclude(doc[r.value])
    ensures r.Some? ==> forall i | r.value < i < end :: !IsInclude(doc[i])
    ensures r.None? ==> forall i | 0 <= i < end :: !IsInclude(doc[i])
  {
    if end == 0 then None
    else if IsInclude(doc[end - 1]) then Some(end - 1)
    else LastInclude(doc, end - 1)
  }

  predicate IsCommentNode(top: Top) {
    top.Plain? && top.block.ItemBlock? && top.block.item.CommentItem?
  }

  predicate IsLineBreakNode(top: Top) {
    && top.Plain? && top.block.ItemBlock? && top.block.item.SpaceItem?
    && ('\n' in top.block.item.text || '\r' in top.block.item.text)
  }

  /** Where a new include goes: after the last one, a comment on its line and the line break. */
  function AfterInclude(doc: Document, last: nat): (r: nat)
    requires last < |doc|
    ensures last < r <= |doc|
  {
    var at := last + 1;
    if at == |doc| then at
    else if IsCommentNode(doc[at]) then
      if at + 1 < |doc| && IsLineBreakNode(doc[at + 1]) then at + 2 else at + 1
    else if IsLineBreakNode(doc[at]) then at + 1
    else at
  }

  const NEWLINE := Plain(ItemBlock(SpaceItem("\n")))

  function NewSection(name: string, comment: string): Document {
    (if comment == "" then [] else [Plain(ItemBlock(CommentItem([CommentText("# " + comment)]))), NEWLINE])
    + [Plain(SectionBlock(name, [SpaceItem("\n")]))]
  }

  function Min(a: nat, b: nat): nat {
    if a <= b then a else b
  }

  datatype Placement = Placement(at: nat, nodes: Document)

  function InsertBefore(doc: Document, end: nat, name: string): (r: nat)
    requires end <= |doc|
    ensures r <= end
  {
    if "include " <= name && LastInclude(doc, end).Some? then Min(AfterInclude(doc, LastInclude(doc, end).value), end)
    else end
  }

  /** Where and what `add_section` inserts for a section that is not there yet. */
  function Insertion(doc: Document, name: string, comment: string, atTop: bool): (r: Placement)
    ensures r.at <= |doc|
    ensures SaveIndex(doc).Some? ==> r.at <= SaveIndex(doc).value
    ensures var section := NewSection(name, comment);
            r.nodes == section || r.nodes == section + [NEWLINE] || r.nodes == [NEWLINE] + section
  {
    var section := NewSection(name, comment);
    if atTop then Placement(0, section)
    else
      var end := if SaveIndex(doc).Some? then SaveIndex(doc).value else |doc|;
      if SaveIndex(doc).Some? || ("include " <= name && LastInclude(doc, end).Some?) then
        Placement(InsertBefore(doc, end, name), section + [NEWLINE])
      else Placement(|doc|, [NEWLINE] + section)
  }

  function Insert(doc: Document, at: nat, nodes: Document): Document
    requires at <= |doc|
  {
    doc[..at] + nodes + doc[at..]
  }

  /** `ConfigBuilder.add_section`; an empty comment stands for none. */
  function AddSection(doc: Document, name: string, comment: string, atTop: bool): Document {
    if HasSection(doc, name) then doc
    else
      var Placement(at, nodes) := Insertion(doc, name, comment, atTop);
      Insert(doc, at, nodes)
  }

  /** No SAVE_CONFIG comment before `end`, and one there unless the document ends. */
  ghost predicate EndsBeforeSave(doc: Document, end: nat) {
    && end <= |doc| && (forall i | 0 <= i < end :: !IsSaveConfig(doc[i]))
    && (end < |doc| ==> IsSaveConfig(doc[end]))
  }

  /** The last include section before `end`. */
  ghost predicate IsLastInclude(doc: Document, k: nat, end: nat) {
    k < end <= |doc| && IsInclude(doc[k]) && forall i | k < i < end :: !IsInclude(doc[i])
  }

  /** Behind the include at `k`: a comment on its line and the line break, where they are there before `end`. */
  ghost predicate BehindInclude(doc: Document, k: nat, end: nat, at: nat)
    requires k < end <= |doc|
  {
    var c := if k + 1 < end && IsCommentNode(doc[k + 1]) then k + 2 else k + 1;
    at == if c < end && IsLineBreakNode(doc[c]) then c + 1 else c
  }

  lemma FoundAt(p: Top -> bool, doc: Document, end: nat)
    requires end <= |doc| && (forall i | 0 <= i < end :: !p(doc[i])) && (end < |doc| ==> p(doc[end]))
    ensures FirstIndex(p, doc) == if end < |doc| then Some(end) else None
  {
  }

  lemma SaveIndexIs(doc: Document, end: nat)
    requires EndsBeforeSave(doc, end)
    ensures SaveIndex(doc) == if end < |doc| then Some(end) else None
  {
    FoundAt(IsSaveConfig, doc, end);
  }

  lemma LastIncludeIs(doc: Document, end: nat)
    requires end <= |doc|
    ensures forall k: nat | IsLastInclude(doc, k, end) :: LastInclude(doc, end) == Some(k)
    ensures (forall k: nat :: !IsLastInclude(doc, k, end)) <==> LastInclude(doc, end).None?
  {
    if LastInclude(doc, end).Some? {
      assert IsLastInclude(doc, LastInclude(doc, end).value, end);
    }
  }

  lemma InsertEnds(doc: Document, nodes: Document)
    ensures Insert(doc, 0, nodes) == nodes + doc && Insert(doc, |doc|, nodes) == doc + nodes
  {
  }

  lemma NotBehindInclude(doc: Document, name: string, comment: string, end: nat)
    requires EndsBeforeSave(doc, end) && !("include " <= name && LastInclude(doc, end).Some?)
    ensures Insertion(doc, name, comment, false) ==
            if end == |doc| then Placement(end, [NEWLINE] + NewSection(name, comment))
            else Placement(end, NewSection(name, comment) + [NEWLINE])
  {
    SaveIndexIs(doc, end);
  }

  lemma BehindIs(doc: Document, k: nat, end: nat, at: nat)
    requires k < end <= |doc| && BehindInclude(doc, k, end, at)
    ensures Min(AfterInclude(doc, k), end) == at <= end
  {
  }

  lemma BehindLastInclude(doc: Document, name: string, comment: string, end: nat, k: nat, at: nat)
    requires EndsBeforeSave(doc, end) && "include " <= name && k < end
    requires LastInclude(doc, end) == Some(k) && BehindInclude(doc, k, end, at)
    ensures Insertion(doc, name, comment, false) == Placement(at, NewSection(name, comment) + [NEWLINE])
    ensures at <= end
  {
    SaveIndexIs(doc, end);
    BehindIs(doc, k, end, at);
    assert InsertBefore(doc, end, name) == at;
  }

  /** Where a missing section goes: to the top if asked for; an include behind the last include there is; everything
      else before the SAVE_CONFIG comment or, without one, to the end. */
  lemma AddedWhere(doc: Document, name: string, comment: string, atTop: bool, end: nat)
    requires !HasSection(doc, name) && EndsBeforeSave(doc, end)
    ensures var doc', section := AddSection(doc, name, comment, atTop), NewSection(name, comment);
            var follows := "include " <= name && exists k: nat :: IsLastInclude(doc, k, end);
            && (atTop ==> doc' == section + doc)
            && (!atTop && !follows && end == |doc| ==> doc' == doc + ([NEWLINE] + section))
            && (!atTop && !follows && end < |doc| ==> doc' == doc[..end] + (section + [NEWLINE]) + doc[end..])
            && (!atTop && "include " <= name ==>
                  forall k: nat, at: nat | IsLastInclude(doc, k, end) && BehindInclude(doc, k, end, at) ::
                    at <= end && doc' == doc[..at] + (section + [NEWLINE]) + doc[at..])
  {
    var section := NewSection(name, comment);
    LastIncludeIs(doc, end);
    if atTop {
      InsertEnds(doc, section);
    } else if "include " <= name && LastInclude(doc, end).Some? {
      forall k: nat, at: nat | IsLastInclude(doc, k, end) && BehindInclude(doc, k, end, at)
        ensures at <= end && AddSection(doc, name, comment, atTop) == doc[..at] + (section + [NEWLINE]) + doc[at..]
      {
        BehindLastInclude(doc, name, comment, end, k, at);
      }
    } else {
      NotBehindInclude(doc, name, comment, end);
      InsertEnds(doc, [NEWLINE] + section);
    }
  }

  lemma ThreeNodes(a: Top, b: Top, c: Top)
    ensures Write([a, b, c]) == TopText(a) + TopText(b) + TopText(c)
  {
    ConcatOne(TopText, a);
    ConcatPush(TopText, [a], b);
    ConcatPush(TopText, [a] + [b], c);
    assert [a] + [b] + [c] == [a, b, c];
  }

  lemma HeaderText(name: string)
    ensures TopText(Plain(SectionBlock(name, [SpaceItem("\n")]))) == "[" + name + "]" + "\n"
  {
    ConcatOne(ItemText, SpaceItem("\n"));
  }

  lemma NoteText(text: string)
    ensures TopText(Plain(ItemBlock(CommentItem([CommentText(text)])))) == text
  {
    ConcatOne(CommentPartText, CommentText(text));
  }

  /** The text of a new section: its comment on a line of its own, and the header. */
  lemma NewSectionText(name: string, comment: string)
    ensures Write(NewSection(name, comment))
            == if comment == "" then "[" + name + "]" + "\n"
               else "# " + comment + "\n" + ("[" + name + "]" + "\n")
  {
    var header := Plain(SectionBlock(name, [SpaceItem("\n")]));
    var note := Plain(ItemBlock(CommentItem([CommentText("# " + comment)])));
    HeaderText(name);
    NoteText("# " + comment);
    if comment == "" {
      ConcatOne(TopText, header);
      assert NewSection(name, comment) == [header];
    } else {
      ThreeNodes(note, NEWLINE, header);
      assert NewSection(name, comment) == [note, NEWLINE, header];
    }
  }

  datatype Request = Request(name: string, comment: string, atTop: bool)

  /** A run of `add_section` calls. */
  function AddSections(doc: Document, requests: seq<Request>): Document
    decreases |requests|
  {
    if requests == [] then doc
    else AddSections(AddSection(doc, requests[0].name, requests[0].comment, requests[0].atTop), requests[1..])
  }

  // ----------------------------------------------------------------------------------- the protected suffix

  /** `xs` can be got from `ys` by leaving nodes out. */
  predicate Subsequence(xs: Document, ys: Document)
    decreases |ys|
  {
    xs == [] || (ys != [] && ((xs[0] == ys[0] && Subsequence(xs[1..], ys[1..])) || Subsequence(xs, ys[1..])))
  }

  lemma {:induction false} SubsequenceSelf(xs: Document)
    ensures Subsequence(xs, xs)
    decreases |xs|
  {
    if xs != [] {
      SubsequenceSelf(xs[1..]);
    }
  }

  lemma {:induction false} SubsequenceAppend(a: Document, b: Document, c: Document, d: Document)
    requires Subsequence(a, b) && Subsequence(c, d)
    ensures Subsequence(a + c, b + d)
    decreases |b|
  {
    if a == [] {
      assert a + c == c;
      SubsequencePrepend(c, b, d);
    } else {
      assert (b + d)[1..] == b[1..] + d;
      if a[0] == b[0] && Subsequence(a[1..], b[1..]) {
        SubsequenceAppend(a[1..], b[1..], c, d);
        assert (a + c)[1..] == a[1..] + c;
      } else {
        SubsequenceAppend(a, b[1..], c, d);
      }
    }
  }

  lemma {:induction false} SubsequencePrepend(c: Document, b: Document, d: Document)
    requires Subsequence(c, d)
    ensures Subsequence(c, b + d)
    decreases |b|
  {
    if b == [] {
      assert b + d == d;
    } else {
      SubsequencePrepend(c, b[1..], d);
      assert (b + d)[1..] == b[1..] + d;
    }
  }

  lemma {:induction false} SubsequenceTransitive(a: Document, b: Document, c: Document)
    requires Subsequence(a, b) && Subsequence(b, c)
    ensures Subsequence(a, c)
    decreases |b| + |c|
  {
    if a != [] {
      if b[0] == c[0] && Subsequence(b[1..], c[1..]) {
        if a[0] == b[0] && Subsequence(a[1..], b[1..]) {
          SubsequenceTransitive(a[1..], b[1..], c[1..]);
        } else {
          SubsequenceTransitive(a, b[1..], c[1..]);
        }
      } else {
        SubsequenceTransitive(a, b, c[1..]);
      }
    }
  }

  lemma CommentIsNoBanner(comment: string)
    ensures !IsSaveConfig(Plain(ItemBlock(CommentItem([CommentText("# " + comment)]))))
  {
    var s := "# " + comment;
    assert PlainTextOf([CommentText(s)]) == s by {
      assert PlainTextOf([CommentText(s)][1..]) == "";
      assert s + "" == s;
    }
    assert SpaceLength(s) == 0;
    assert LStrip(s) == s;
    assert s[1] == ' ';
    assert !("#*#" <= s);
  }

  ghost predicate NoneOf(p: Top -> bool, doc: Document) {
    forall i | 0 <= i < |doc| :: !p(doc[i])
  }

  lemma NoneOfConcat(p: Top -> bool, a: Document, b: Document)
    requires NoneOf(p, a) && NoneOf(p, b)
    ensures NoneOf(p, a + b)
  {
  }

  lemma NoBanner(top: Top)
    requires !IsCommentNode(top)
    ensures NoneOf(IsSaveConfig, [top])
  {
  }

  /** The nodes an insertion adds are no SAVE_CONFIG comments. */
  lemma NewNodesAreNoBanner(doc: Document, name: string, comment: string, atTop: bool)
    ensures NoneOf(IsSaveConfig, Insertion(doc, name, comment, atTop).nodes)
  {
    var section := Plain(SectionBlock(name, [SpaceItem("\n")]));
    NoBanner(section);
    NoBanner(NEWLINE);
    if comment == "" {
      assert NewSection(name, comment) == [section];
    } else {
      var remark := Plain(ItemBlock(CommentItem([CommentText("# " + comment)])));
      CommentIsNoBanner(comment);
      assert NoneOf(IsSaveConfig, [remark]);
      NoneOfConcat(IsSaveConfig, [remark], [NEWLINE]);
      NoneOfConcat(IsSaveConfig, [remark] + [NEWLINE], [section]);
      assert NewSection(name, comment) == [remark] + [NEWLINE] + [section];
    }
    NoneOfConcat(IsSaveConfig, NewSection(name, comment), [NEWLINE]);
    NoneOfConcat(IsSaveConfig, [NEWLINE], NewSection(name, comment));
  }

  lemma FirstIndexIs(p: Top -> bool, a: Document, b: Document)
    requires NoneOf(p, a) && b != [] && p(b[0])
    ensures FirstIndex(p, a + b) == Some(|a|)
  {
    assert (a + b)[|a|] == b[0];
    assert forall i | 0 <= i < |a| :: (a + b)[i] == a[i];
  }

  /** From the first node that satisfies `p` on, nothing has changed; the nodes before it are still there, in
      their order. */
  ghost predicate Keeps(p: Top -> bool, doc: Document, doc': Document) {
    && FirstIndex(p, doc).Some? && FirstIndex(p, doc').Some?
    && var k, k' := FirstIndex(p, doc).value, FirstIndex(p, doc').value;
       doc'[k'..] == doc[k..] && Subsequence(doc[..k], doc'[..k'])
  }

  lemma KeepsItself(p: Top -> bool, doc: Document)
    requires FirstIndex(p, doc).Some?
    ensures Keeps(p, doc, doc)
  {
    SubsequenceSelf(doc[..FirstIndex(p, doc).value]);
  }

  lemma KeepsTransitive(p: Top -> bool, a: Document, b: Document, c: Document)
    requires Keeps(p, a, b) && Keeps(p, b, c)
    ensures Keeps(p, a, c)
  {
    SubsequenceTransitive(a[..FirstIndex(p, a).value], b[..FirstIndex(p, b).value], c[..FirstIndex(p, c).value]);
  }

  lemma InsertionOrder(a: Document, nodes: Document, b: Document)
    ensures Subsequence(a + b, a + nodes + b)
  {
    SubsequenceSelf(a);
    SubsequenceSelf(b);
    SubsequencePrepend(b, nodes, b);
    SubsequenceAppend(a, a, b, nodes + b);
    assert a + (nodes + b) == a + nodes + b;
  }

  lemma InsertedBetween(p: Top -> bool, a: Document, nodes: Document, b: Document, c: Document)
    requires NoneOf(p, a) && NoneOf(p, nodes) && NoneOf(p, b) && c != [] && p(c[0])
    ensures Keeps(p, a + b + c, a + nodes + b + c)
  {
    NoneOfConcat(p, a, b);
    NoneOfConcat(p, a, nodes);
    NoneOfConcat(p, a + nodes, b);
    FirstIndexIs(p, a + b, c);
    FirstIndexIs(p, a + nodes + b, c);
    InsertionOrder(a, nodes, b);
    assert (a + b + c)[..|a + b|] == a + b && (a + b + c)[|a + b|..] == c;
    assert (a + nodes + b + c)[..|a + nodes + b|] == a + nodes + b;
    assert (a + nodes + b + c)[|a + nodes + b|..] == c;
  }

  lemma InsertedAt(p: Top -> bool, doc: Document, at: nat, nodes: Document)
    requires FirstIndex(p, doc).Some? && at <= FirstIndex(p, doc).value
    requires NoneOf(p, nodes)
    ensures Keeps(p, doc, Insert(doc, at, nodes))
  {
    var k := FirstIndex(p, doc).value;
    SliceNone(p, doc, 0, at, k);
    SliceNone(p, doc, at, k, k);
    Slices(doc, at, k, nodes);
    InsertedBetween(p, doc[0..at], nodes, doc[at..k], doc[k..]);
  }

  lemma SliceNone(p: Top -> bool, doc: Document, i: nat, j: nat, k: nat)
    requires i <= j <= k <= |doc| && forall m | 0 <= m < k :: !p(doc[m])
    ensures NoneOf(p, doc[i..j])
  {
  }

  lemma Slices(doc: Document, i: nat, j: nat, nodes: Document)
    requires i <= j <= |doc|
    ensures doc[0..i] + doc[i..j] + doc[j..] == doc
    ensures doc[0..i] + nodes + doc[i..j] + doc[j..] == Insert(doc, i, nodes)
  {
    assert doc[i..j] + doc[j..] == doc[i..];
  }

  lemma TextSplit(doc: Document, k: nat)
    requires k <= |doc|
    ensures Write(doc) == Write(doc[..k]) + Write(doc[k..])
  {
    ConcatAppend(TopText, doc[..k], doc[k..]);
    assert doc == doc[..k] + doc[k..];
  }

  /** What one call keeps: the nodes from the SAVE_CONFIG comment on, and all earlier ones in order. */
  lemma AddSectionKeepsSaved(doc: Document, name: string, comment: string, atTop: bool)
    requires SaveIndex(doc).Some?
    ensures Keeps(IsSaveConfig, doc, AddSection(doc, name, comment, atTop))
  {
    if HasSection(doc, name) {
      KeepsItself(IsSaveConfig, doc);
    } else {
      var Placement(at, nodes) := Insertion(doc, name, comment, atTop);
      NewNodesAreNoBanner(doc, name, comment, atTop);
      InsertedAt(IsSaveConfig, doc, at, nodes);
    }
  }

  lemma {:induction false} AddSectionsKeep(doc: Document, requests: seq<Request>)
    requires SaveIndex(doc).Some?
    ensures Keeps(IsSaveConfig, doc, AddSections(doc, requests))
    decreases |requests|
  {
    if requests == [] {
      KeepsItself(IsSaveConfig, doc);
    } else {
      var next := AddSection(doc, requests[0].name, requests[0].comment, requests[0].atTop);
      AddSectionKeepsSaved(doc, requests[0].name, requests[0].comment, requests[0].atTop);
      AddSectionsKeep(next, requests[1..]);
      KeepsTransitive(IsSaveConfig, doc, next, AddSections(next, requests[1..]));
    }
  }

  /** Over any run of additions the text from the SAVE_CONFIG comment to the end stays an exact suffix, and all
      earlier nodes stay, in their order. */
  lemma AddSectionsKeepSaved(doc: Document, requests: seq<Request>)
    requires SaveIndex(doc).Some?
    ensures var doc' := AddSections(doc, requests);
            && SaveIndex(doc').Some?
            && var k, k' := SaveIndex(doc).value, SaveIndex(doc').value;
               && Subsequence(doc[..k], doc'[..k'])
               && Write(doc') == Write(doc'[..k']) + Write(doc[k..])
  {
    AddSectionsKeep(doc, requests);
    var doc' := AddSections(doc, requests);
    TextSplit(doc', FirstIndex(IsSaveConfig, doc').value);
  }

  // ------------------------------------------------------------------------------------ each section once

  function CountInBlock(name: string, block: Block): nat {
    if IsSection(block, name) then 1 else 0
  }

  function CountInBlocks(name: string, blocks: seq<Block>): nat {
    if blocks == [] then 0 else CountInBlock(name, blocks[0]) + CountInBlocks(name, blocks[1..])
  }

  function CountInTop(name: string, top: Top): nat {
    match top
    case Plain(block) => CountInBlock(name, block)
    case Exclusion(body, _) => CountInBlocks(name, body)
  }

  /** How many sections of a name the document has. */
  function Count(name: string, doc: Document): nat {
    if doc == [] then 0 else CountInTop(name, doc[0]) + Count(name, doc[1..])
  }

  lemma {:induction false} CountAppend(name: string, a: Document, b: Document)
    ensures Count(name, a + b) == Count(name, a) + Count(name, b)
  {
    if a == [] {
      assert a + b == b;
    } else {
      CountAppend(name, a[1..], b);
      assert (a + b)[1..] == a[1..] + b;
    }
  }

  lemma {:induction false} NoBlockCounts(name: string, blocks: seq<Block>)
    ensures CountInBlocks(name, blocks) == 0 <==> LastBlock(blocks, name).None?
  {
    if blocks != [] {
      NoBlockCounts(name, blocks[1..]);
      if LastBlock(blocks[1..], name).Some? {
        assert IsSection(blocks[1 + LastBlock(blocks[1..], name).value], name);
      } else {
        assert forall j | 1 <= j < |blocks| :: blocks[j] == blocks[1..][j - 1];
      }
    }
  }

  lemma TopCounts(name: string, top: Top, i: nat)
    ensures CountInTop(name, top) == 0 <==> LastInTop(top, i, name).None?
  {
    if top.Exclusion? {
      NoBlockCounts(name, top.body);
    }
  }

  /** A section is found exactly when the document has one of its name. */
  lemma {:induction false} FoundCounts(name: string, doc: Document)
    ensures HasSection(doc, name) <==> Count(name, doc) > 0
    decreases |doc|
  {
    var n := |doc|;
    if n > 0 {
      var front := doc[..n - 1];
      FoundCounts(name, front);
      TopCounts(name, doc[n - 1], n - 1);
      CountAppend(name, front, [doc[n - 1]]);
      assert doc == front + [doc[n - 1]];
      assert Count(name, [doc[n - 1]]) == CountInTop(name, doc[n - 1]) by {
        assert [doc[n - 1]][1..] == [];
      }
    }
  }

  lemma InsertionCounts(doc: Document, name: string, comment: string, atTop: bool, other: string)
    ensures Count(other, Insertion(doc, name, comment, atTop).nodes) == if other == name then 1 else 0
  {
    var comments: Document :=
      if comment == "" then [] else [Plain(ItemBlock(CommentItem([CommentText("# " + comment)]))), NEWLINE];
    var section := Plain(SectionBlock(name, [SpaceItem("\n")]));
    CountAppend(other, comments, [section]);
    CountAppend(other, NewSection(name, comment), [NEWLINE]);
    CountAppend(other, [NEWLINE], NewSection(name, comment));
    assert Count(other, [NEWLINE]) == 0 by { assert [NEWLINE][1..] == []; }
    assert Count(other, comments) == 0 by {
      if comment != "" {
        assert comments[1..] == [NEWLINE];
      }
    }
    assert Count(other, [section]) == if other == name then 1 else 0 by { assert [section][1..] == []; }
  }

  /** One call adds a missing section once and changes no other count. */
  lemma AddSectionCounts(doc: Document, name: string, comment: string, atTop: bool, other: string)
    ensures Count(other, AddSection(doc, name, comment, atTop)) ==
              if other == name && Count(name, doc) == 0 then 1 else Count(other, doc)
  {
    FoundCounts(name, doc);
    if !HasSection(doc, name) {
      var Placement(at, nodes) := Insertion(doc, name, comment, atTop);
      InsertionCounts(doc, name, comment, atTop, other);
      InsertCounts(doc, at, nodes, other);
    }
  }

  lemma InsertCounts(doc: Document, at: nat, nodes: Document, name: string)
    requires at <= |doc|
    ensures Count(name, Insert(doc, at, nodes)) == Count(name, doc) + Count(name, nodes)
  {
    CountAppend(name, doc[..at], nodes);
    CountAppend(name, doc[..at] + nodes, doc[at..]);
    CountAppend(name, doc[..at], doc[at..]);
    assert doc == doc[..at] + doc[at..];
  }

  predicate Requested(requests: seq<Request>, name: string) {
    exists i | 0 <= i < |requests| :: requests[i].name == name
  }

  /** Over any run, a section that was missing and is requested is there exactly once; no other count changes. */
  lemma {:induction false} AddSectionsOnce(doc: Document, requests: seq<Request>, name: string)
    ensures Count(name, AddSections(doc, requests)) ==
              if Count(name, doc) == 0 && Requested(requests, name) then 1 else Count(name, doc)
    decreases |requests|
  {
    if requests != [] {
      var r := requests[0];
      var next := AddSection(doc, r.name, r.comment, r.atTop);
      AddSectionCounts(doc, r.name, r.comment, r.atTop, name);
      AddSectionsOnce(next, requests[1..], name);
      if Requested(requests[1..], name) {
        var i :| 0 <= i < |requests[1..]| && requests[1..][i].name == name;
        assert requests[i + 1].name == name;
      }
      if Requested(requests, name) && r.name != name {
        var i :| 0 <= i < |requests| && requests[i].name == name;
        assert requests[1..][i - 1].name == name;
      }
    }
  }
}
