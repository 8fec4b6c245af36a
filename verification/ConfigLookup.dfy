/** Looking sections and options up: the last match wins, exclusion blocks included. */
module ConfigLookup {
  import opened Text
  import opened ConfigTree

  /** Where a section sits: in the document or in an exclusion block of it. */
  datatype Ref =
    | AtTop(i: nat)
    | InExclusion(i: nat, j: nat)

  predicate IsSection(block: Block, name: string) {
    block.SectionBlock? && block.name == name
  }

  /** Last section called `name` among `blocks`. */
  function LastBlock(blocks: seq<Block>, name: string): (r: Option<nat>)
    ensures r.Some? ==> r.value < |blocks| && IsSection(blocks[r.value], name)
    ensures r.Some? ==> forall j | r.value < j < |blocks| :: !IsSection(blocks[j], name)
    ensures r.None? ==> forall j | 0 <= j < |blocks| :: !IsSection(blocks[j], name)
  {
    var n := |blocks|;
    if n == 0 then None
    else if IsSection(blocks[n - 1], name) then Some(n - 1)
    else LastBlock(blocks[..n - 1], name)
  }

  /** Last match inside one top-level node at index `i`. */
  function LastInTop(top: Top, i: nat, name: string): (r: Option<Ref>) {
    match top
    case Plain(block) => if IsSection(block, name) then Some(AtTop(i)) else None
    case Exclusion(body, _) =>
      match LastBlock(body, name)
      case Some(j) => Some(InExclusion(i, j))
      case None => None
  }

  ghost predicate ValidRef(doc: Document, r: Ref) {
    && r.i < |doc|
    && (r.AtTop? ==> doc[r.i].Plain? && doc[r.i].block.SectionBlock?)
    && (r.InExclusion? ==> doc[r.i].Exclusion? && r.j < |doc[r.i].body| && doc[r.i].body[r.j].SectionBlock?)
  }

  function SectionAt(doc: Document, r: Ref): Block
    requires ValidRef(doc, r)
  {
    if r.AtTop? then doc[r.i].block else doc[r.i].body[r.j]
  }

  /** `_get_section`: the last section called `name`. */
  function FindSection(doc: Document, name: string): (r: Option<Ref>)
    ensures r.Some? ==> ValidRef(doc, r.value) && SectionAt(doc, r.value).name == name
    ensures r.Some? ==> LastInTop(doc[r.value.i], r.value.i, name) == r
    ensures r.Some? ==> forall i | r.value.i < i < |doc| :: LastInTop(doc[i], i, name).None?
    ensures r.None? ==> forall i | 0 <= i < |doc| :: LastInTop(doc[i], i, name).None?
  {
    var n := |doc|;
    if n == 0 then None
    else if LastInTop(doc[n - 1], n - 1, name).Some? then LastInTop(doc[n - 1], n - 1, name)
    else FindSection(doc[..n - 1], name)
  }

  predicate HasSection(doc: Document, name: string) {
    FindSection(doc, name).Some?
  }

  predicate IsOption(item: Item, name: string) {
    item.OptionItem? && item.name == name
  }

  /** Last option called `name` of a section body. */
  function FindOption(body: seq<Item>, name: string): (r: Option<nat>)
    ensures r.Some? ==> r.value < |body| && IsOption(body[r.value], name)
    ensures r.Some? ==> forall j | r.value < j < |body| :: !IsOption(body[j], name)
    ensures r.None? ==> forall j | 0 <= j < |body| :: !IsOption(body[j], name)
  {
    var n := |body|;
    if n == 0 then None
    else if IsOption(body[n - 1], name) then Some(n - 1)
    else FindOption(body[..n - 1], name)
  }

  /** `_get_option`: the last option of the last section of those names. */
  function LookUp(doc: Document, section: string, option: string): (r: Option<Item>)
    ensures r.Some? ==> IsOption(r.value, option)
  {
    match FindSection(doc, section)
    case None => None
    case Some(ref) =>
      var body := SectionAt(doc, ref).body;
      match FindOption(body, option)
      case None => None
      case Some(k) => Some(body[k])
  }

  predicate HasOption(doc: Document, section: string, option: string) {
    LookUp(doc, section, option).Some?
  }

  /** What a piece contributes to a value: comments are left out. */
  function PieceValue(p: Piece): string {
    if p.Remark? then "" else PieceText(p)
  }

  function LineValue(line: Line): string {
    Concat(PieceValue, line)
  }

  function LinesValue(lines: seq<Line>): string {
    Render(PieceValue, lines)
  }

  /** A piece that holds value text. */
  predicate IsInk(p: Piece) {
    p.Entry? && !AllSpace(p.text)
  }

  predicate SlotFree(line: Line) {
    forall i | 0 <= i < |line| :: !line[i].Slot?
  }

  /** `ConfigBuilder.get` without a default; `None` stands for the default. */
  function Get(doc: Document, section: string, option: string): Option<string> {
    match LookUp(doc, section, option)
    case None => None
    case Some(item) => if item.lines == [] then None else Some(Strip(LinesValue(item.lines)))
  }

  /** The document with the body of one section replaced. */
  function WithBody(doc: Document, r: Ref, body: seq<Item>): Document
    requires ValidRef(doc, r)
  {
    var block := SectionBlock(SectionAt(doc, r).name, body);
    if r.AtTop? then doc[r.i := Plain(block)]
    else doc[r.i := Exclusion(doc[r.i].body[r.j := block], doc[r.i].origin)]
  }

  lemma LastBlockIs(blocks: seq<Block>, name: string, j: nat)
    requires j < |blocks| && IsSection(blocks[j], name)
    requires forall m | j < m < |blocks| :: !IsSection(blocks[m], name)
    ensures LastBlock(blocks, name) == Some(j)
  {
  }

  lemma LastBlockSame(blocks: seq<Block>, j: nat, block: Block, name: string)
    requires j < |blocks| && IsSection(block, name) == IsSection(blocks[j], name)
    ensures LastBlock(blocks[j := block], name) == LastBlock(blocks, name)
  {
    match LastBlock(blocks, name)
    case Some(k) => LastBlockIs(blocks[j := block], name, k);
    case None =>
  }

  lemma FindSectionIs(doc: Document, name: string, r: Ref)
    requires r.i < |doc| && LastInTop(doc[r.i], r.i, name) == Some(r)
    requires forall i | r.i < i < |doc| :: LastInTop(doc[i], i, name).None?
    ensures FindSection(doc, name) == Some(r)
  {
  }

  lemma WithBodyTop(doc: Document, r: Ref, body: seq<Item>, i: nat, name: string)
    requires ValidRef(doc, r) && i < |doc|
    ensures LastInTop(WithBody(doc, r, body)[i], i, name) == LastInTop(doc[i], i, name)
  {
    if r.InExclusion? && i == r.i {
      LastBlockSame(doc[i].body, r.j, SectionBlock(SectionAt(doc, r).name, body), name);
    }
  }

  /** Replacing a body changes no lookup of a section. */
  lemma WithBodySections(doc: Document, r: Ref, body: seq<Item>, name: string)
    requires ValidRef(doc, r)
    ensures FindSection(WithBody(doc, r, body), name) == FindSection(doc, name)
  {
    var doc' := WithBody(doc, r, body);
    forall i | 0 <= i < |doc|
      ensures LastInTop(doc'[i], i, name) == LastInTop(doc[i], i, name)
    {
      WithBodyTop(doc, r, body, i, name);
    }
    match FindSection(doc, name)
    case Some(q) => FindSectionIs(doc', name, q);
    case None =>
  }

  lemma WithBodyAt(doc: Document, r: Ref, body: seq<Item>, q: Ref)
    requires ValidRef(doc, r) && ValidRef(doc, q)
    ensures ValidRef(WithBody(doc, r, body), q)
    ensures SectionAt(WithBody(doc, r, body), q).body == if q == r then body else SectionAt(doc, q).body
  {
  }

  lemma FindOptionIs(body: seq<Item>, name: string, k: nat)
    requires k < |body| && IsOption(body[k], name)
    requires forall m | k < m < |body| :: !IsOption(body[m], name)
    ensures FindOption(body, name) == Some(k)
  {
  }

  lemma FindOptionNone(body: seq<Item>, name: string)
    requires forall m | 0 <= m < |body| :: !IsOption(body[m], name)
    ensures FindOption(body, name) == None
  {
  }

  /** Replacing an option by one of the same name, or adding items that are not options of that name, leaves
      every lookup of another option as it was. */
  lemma OtherOption(body: seq<Item>, k: nat, item: Item, name: string)
    requires k < |body| && !IsOption(body[k], name) && !IsOption(item, name)
    ensures FindOption(body[k := item], name) == FindOption(body, name)
  {
    match FindOption(body, name)
    case Some(m) => FindOptionIs(body[k := item], name, m);
    case None => FindOptionNone(body[k := item], name);
  }

  lemma AppendedItems(body: seq<Item>, extra: seq<Item>, name: string)
    requires forall m | 0 <= m < |extra| :: !IsOption(extra[m], name)
    ensures FindOption(body + extra, name) == FindOption(body, name)
  {
    match FindOption(body, name)
    case Some(m) => FindOptionIs(body + extra, name, m);
    case None => FindOptionNone(body + extra, name);
  }
}
