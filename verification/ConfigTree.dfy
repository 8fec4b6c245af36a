/** The document tree and its serialization. Levels are separate types because the parser never nests them any
    other way: a document holds sections, items and exclusion blocks; a section holds items; an option holds value
    lines; a value line holds pieces; a comment holds text and placeholders. */
module ConfigTree {
  import opened Text

  datatype CommentPart =
    | CommentText(text: string)
    | CommentPlaceholder(name: string)

  datatype Piece =
    | Entry(text: string)
    | Space(text: string)
    | Remark(parts: seq<CommentPart>)
    | Slot(name: string)

  type Line = seq<Piece>

  datatype Item =
    | HiddenItem(text: string)
    | CommentItem(parts: seq<CommentPart>)
    | OptionItem(name: string, trailing: string, op: string, lines: seq<Line>)
    | PlaceholderItem(name: string)
    | SpaceItem(text: string)
    | TemplateItem(text: string)
    | UnparsedItem(text: string, reason: string)

  datatype Block =
    | SectionBlock(name: string, body: seq<Item>)
    | ItemBlock(item: Item)

  datatype Top =
    | Plain(block: Block)
    | Exclusion(body: seq<Block>, origin: Option<string>)

  type Document = seq<Top>

  function CommentPartText(p: CommentPart): string {
    match p
    case CommentText(text) => text
    case CommentPlaceholder(name) => "{" + name + "}"
  }

  function CommentPartsText(parts: seq<CommentPart>): string {
    Concat(CommentPartText, parts)
  }

  function PieceText(p: Piece): string {
    match p
    case Entry(text) => text
    case Space(text) => text
    case Remark(parts) => CommentPartsText(parts)
    case Slot(name) => "{" + name + "}"
  }

  /** Value lines rendered piece by piece. */
  function Render(f: Piece -> string, lines: seq<Line>): string {
    if lines == [] then "" else Concat(f, lines[0]) + Render(f, lines[1..])
  }

  function LinesText(lines: seq<Line>): string {
    Render(PieceText, lines)
  }

  function ItemText(item: Item): string {
    match item
    case HiddenItem(text) => text
    case CommentItem(parts) => CommentPartsText(parts)
    case OptionItem(name, trailing, op, lines) => name + trailing + op + LinesText(lines)
    case PlaceholderItem(name) => "{" + name + "}"
    case SpaceItem(text) => text
    case TemplateItem(text) => text
    case UnparsedItem(text, _) => text
  }

  function ItemsText(items: seq<Item>): string {
    Concat(ItemText, items)
  }

  function BlockText(block: Block): string {
    match block
    case SectionBlock(name, body) => "[" + name + "]" + ItemsText(body)
    case ItemBlock(item) => ItemText(item)
  }

  function BlocksText(blocks: seq<Block>): string {
    Concat(BlockText, blocks)
  }

  function TopText(top: Top): string {
    match top
    case Plain(block) => BlockText(block)
    case Exclusion(body, _) => BlocksText(body)
  }

  /** `ConfigBuilder.write` */
  function Write(doc: Document): string {
    Concat(TopText, doc)
  }

  function UnparsedInItem(item: Item): nat {
    if item.UnparsedItem? then 1 else 0
  }

  function UnparsedInBlock(block: Block): nat {
    match block
    case SectionBlock(_, body) => Total(UnparsedInItem, body)
    case ItemBlock(item) => UnparsedInItem(item)
  }

  function UnparsedInTop(top: Top): nat {
    match top
    case Plain(block) => UnparsedInBlock(block)
    case Exclusion(body, _) => Total(UnparsedInBlock, body)
  }

  /** How many nodes `parse_errors` lists. */
  function ParseErrors(doc: Document): nat {
    Total(UnparsedInTop, doc)
  }

  lemma RenderCons(f: Piece -> string, xs: seq<Line>, ys: seq<Line>)
    requires xs != []
    ensures Render(f, xs + ys) == Concat(f, xs[0]) + Render(f, xs[1..] + ys)
  {
    assert (xs + ys)[1..] == xs[1..] + ys;
  }

  lemma {:induction false} RenderAppend(f: Piece -> string, xs: seq<Line>, ys: seq<Line>)
    ensures Render(f, xs + ys) == Render(f, xs) + Render(f, ys)
  {
    if xs == [] {
      assert xs + ys == ys;
    } else {
      RenderAppend(f, xs[1..], ys);
      RenderCons(f, xs, ys);
      Associate(Concat(f, xs[0]), Render(f, xs[1..]), Render(f, ys));
    }
  }

  lemma RenderPush(f: Piece -> string, xs: seq<Line>, x: Line)
    ensures Render(f, xs + [x]) == Render(f, xs) + Concat(f, x)
  {
    RenderAppend(f, xs, [x]);
    assert Render(f, [x][1..]) == "";
  }
}
