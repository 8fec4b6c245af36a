/** What the config parser computes, as functions of the text still to be read. The methods of the parser are
    proved to compute exactly these functions; the properties of parsing are proved about them. */
module ConfigGrammar {
  import opened Text
  import opened ConfigTokens
  import opened ConfigTree

  const PARSE_ERROR_MARKER := "# !! HAPPY HARE PARSE ERROR"
  const MAX_RECOVERIES := 50
  const MARKER_END := " - line(s) above left " + "untouched, please fix"
  const UNEXPECTED := "Expected a [section], " + "an option or a comment, got '"

  /** A result and the text left after it. */
  datatype Parsed<+T> = Parsed(value: T, rest: string)

  datatype Attempt<+T> =
    | Success(value: T, rest: string)
    | SyntaxError(reason: string)

  function After(s: string, t: Token): string
    requires t.text <= s
  {
    s[|t.text|..]
  }

  function Inner(s: string): string
    requires |s| >= 2
  {
    s[1..|s| - 1]
  }

  // ---------------------------------------------------------------------------------------------- comments

  predicate IsMagicComment(t: Token) {
    t.kind == Comment && "# EXCLUDE FROM CONFIG BUILDER" <= LStrip(t.text)
  }

  function FlushComment(parts: seq<CommentPart>, current: string): seq<CommentPart> {
    if current == "" then parts else parts + [CommentText(current)]
  }

  function CommentLoop(parts: seq<CommentPart>, current: string, s: string): Parsed<seq<CommentPart>>
    decreases |s|
  {
    if s == "" then Parsed(FlushComment(parts, current), s)
    else
      var t := Lex(s);
      if t.kind == Whitespace && '\n' in t.text then Parsed(FlushComment(parts, current), s)
      else if t.kind == Placeholder then
        CommentLoop(FlushComment(parts, current) + [CommentPlaceholder(Inner(t.text))], "", After(s, t))
      else CommentLoop(parts, current + t.text, After(s, t))
  }

  function ParseComment(s: string): Parsed<seq<CommentPart>>
    requires s != ""
  {
    CommentLoop([], Lex(s).text, After(s, Lex(s)))
  }

  // ------------------------------------------------------------------------------------------------ values

  /** Open brackets and quotes seen so far in a value. */
  datatype Balance = Balance(brace: nat, bracket: nat, paren: nat, inSq: bool, inDq: bool, esc: bool)

  const BALANCED := Balance(0, 0, 0, false, false, false)

  function Less(n: nat): nat {
    if n == 0 then 0 else n - 1
  }

  function ScanChar(b: Balance, c: char): Balance {
    if b.esc then b.(esc := false)
    else if c == '\\' then b.(esc := true)
    else if b.inSq then (if c == '\'' then b.(inSq := false) else b)
    else if b.inDq then (if c == '"' then b.(inDq := false) else b)
    else if c == '\'' then b.(inSq := true)
    else if c == '"' then b.(inDq := true)
    else if c == '{' then b.(brace := b.brace + 1)
    else if c == '}' then b.(brace := Less(b.brace))
    else if c == '[' then b.(bracket := b.bracket + 1)
    else if c == ']' then b.(bracket := Less(b.bracket))
    else if c == '(' then b.(paren := b.paren + 1)
    else if c == ')' then b.(paren := Less(b.paren))
    else b
  }

  function ScanBalance(b: Balance, s: string): Balance
    decreases |s|
  {
    if s == "" then b else ScanBalance(ScanChar(b, s[0]), s[1..])
  }

  lemma {:induction false} ScanAppend(b: Balance, x: string, y: string)
    ensures ScanBalance(b, x + y) == ScanBalance(ScanBalance(b, x), y)
    decreases |x|
  {
    if x == "" {
      assert x + y == y;
    } else {
      ScanAppend(ScanChar(b, x[0]), x[1..], y);
      assert (x + y)[1..] == x[1..] + y;
    }
  }

  /** Outside every bracket and quote; an escape pending at the end of the text does not matter. */
  predicate Closed(b: Balance) {
    b.brace == 0 && b.bracket == 0 && b.paren == 0 && !b.inSq && !b.inDq
  }

  predicate IsVariableLine(s: string) {
    && "variable_" <= s
    && var r := s[9..];
       var n := VariableNameLength(r);
       n > 0 && var q := r[n + BlankLength(r[n..])..]; q != "" && (q[0] == ':' || q[0] == '=')
  }

  function VariableNameLength(s: string): (n: nat)
    ensures n <= |s|
  {
    if s == "" || !IsWordChar(s[0]) then 0 else 1 + VariableNameLength(s[1..])
  }

  /** Leading blanks, carriage returns and newlines: what `lstrip(" \t\r\n")` removes. */
  function MarginLength(s: string): (n: nat)
    ensures n <= |s|
  {
    if s == "" || !(IsBlank(s[0]) || s[0] == '\r' || s[0] == '\n') then 0 else 1 + MarginLength(s[1..])
  }

  /** Where a gcode value ends: before a section header or a `variable_` option. */
  predicate LooksLikeGcodeBoundary(s: string) {
    var r := s[MarginLength(s)..];
    r != "" && (r[0] == '[' || IsVariableLine(r))
  }

  predicate IsContinuationLine(line: string) {
    0 < BlankLength(line) < |line| && !IsSpace(line[BlankLength(line)])
  }

  /** Whether a run of comment-only lines in `s` is followed by an indented line. */
  predicate ContinuationFollows(s: string)
    decreases |s|
  {
    s != "" &&
    var n := LineLength(s);
    if !StartsComment(s[..n]) then IsContinuationLine(s[..n])
    else n < |s| && ContinuationFollows(s[n + 1..])
  }

  function CountNewlines(s: string): nat {
    if s == "" then 0 else (if s[0] == '\n' then 1 else 0) + CountNewlines(s[1..])
  }

  predicate ContinuesAfterComments(newline: string, s: string) {
    CountNewlines(newline) == 1 && ContinuationFollows(s)
  }

  /** Index of the first `\r?\n`, the length when there is none. */
  function BreakIndex(s: string): (n: nat)
    ensures n <= |s|
  {
    if s == "" || s[0] == '\n' || "\r\n" <= s then 0 else 1 + BreakIndex(s[1..])
  }

  datatype ValueState = ValueState(lines: seq<Line>, line: Line, entry: string, balance: Balance)

  const EMPTY_VALUE := ValueState([], [], "", BALANCED)

  function FlushEntry(line: Line, entry: string): Line {
    if entry == "" then line else line + [Entry(entry)]
  }

  /** Moves every complete line of the current entry into the value lines. */
  function SplitEntry(st: ValueState): ValueState
    decreases |st.entry|
  {
    var n := LineLength(st.entry);
    if n == |st.entry| then st
    else SplitEntry(ValueState(st.lines + [st.line + [Entry(st.entry[..n + 1])]], [], st.entry[n + 1..], st.balance))
  }

  /** Accepts the text of a whitespace token. */
  function AddSpace(st: ValueState, text: string): ValueState {
    SplitEntry(
      if st.lines == [] && st.line == [] && st.entry == "" then st.(line := [Space(text)])
      else st.(entry := st.entry + text, balance := ScanBalance(st.balance, text)))
  }

  function AddPiece(st: ValueState, piece: Piece): ValueState {
    st.(line := FlushEntry(st.line, st.entry) + [piece], entry := "")
  }

  function AddText(st: ValueState, text: string): ValueState {
    st.(entry := st.entry + text, balance := ScanBalance(st.balance, text))
  }

  /** Whether the whitespace token `text`, with `s` after it, ends the value. */
  predicate EndsValue(st: ValueState, text: string, s: string, asIs: bool) {
    && "\n" <= text && text[|text| - 1] == '\n'
    && Closed(st.balance)
    && (if asIs then LooksLikeGcodeBoundary(s) else !ContinuesAfterComments(text, s))
  }

  /** How much of a whitespace token is taken: up to its first line break unless it starts with one. */
  function TakenSpace(text: string): (r: string)
    ensures r <= text
    ensures text != "" ==> r != ""
  {
    var n := BreakIndex(text);
    if 0 < n < |text| then text[..n] else text
  }

  /** One round of the value loop on the next token of `s`; `None` when the value ends before it. */
  function ValueStep(st: ValueState, s: string, asIs: bool): (r: Option<Parsed<ValueState>>)
    requires s != ""
    ensures r.Some? ==> |r.value.rest| < |s|
  {
    var t := Lex(s);
    if t.kind == Whitespace then
      if EndsValue(st, t.text, After(s, t), asIs) then None
      else Some(Parsed(AddSpace(st, TakenSpace(t.text)), s[|TakenSpace(t.text)|..]))
    else if !asIs && t.kind == Comment then
      var c := ParseComment(s);
      CommentProgress(s);
      Some(Parsed(AddPiece(st, Remark(c.value)), c.rest))
    else if asIs && t.kind == Section then None
    else if asIs && t.kind == Comment then Some(Parsed(st.(entry := st.entry + t.text), After(s, t)))
    else if !asIs && t.kind == Placeholder then Some(Parsed(AddPiece(st, Slot(Inner(t.text))), After(s, t)))
    else Some(Parsed(AddText(st, t.text), After(s, t)))
  }

  function FinishValue(st: ValueState): seq<Line> {
    var line := FlushEntry(st.line, st.entry);
    if line == [] then st.lines else st.lines + [line]
  }

  function ValueLoop(st: ValueState, s: string, asIs: bool): Parsed<seq<Line>>
    decreases |s|
  {
    if s == "" || ValueStep(st, s, asIs).None? then Parsed(FinishValue(st), s)
    else
      var next := ValueStep(st, s, asIs).value;
      ValueLoop(next.value, next.rest, asIs)
  }

  function ParseValue(s: string, asIs: bool): Parsed<seq<Line>> {
    ValueLoop(EMPTY_VALUE, s, asIs)
  }

  lemma {:induction false} CommentLoopProgress(parts: seq<CommentPart>, current: string, s: string)
    ensures |CommentLoop(parts, current, s).rest| <= |s|
    decreases |s|
  {
    if s != "" {
      var t := Lex(s);
      var more := if t.kind == Placeholder then [CommentPlaceholder(Inner(t.text))] else [];
      CommentLoopProgress(FlushComment(parts, current) + more, "", After(s, t));
      CommentLoopProgress(parts, current + t.text, After(s, t));
    }
  }

  lemma CommentProgress(s: string)
    requires s != ""
    ensures |ParseComment(s).rest| < |s|
  {
    CommentLoopProgress([], Lex(s).text, After(s, Lex(s)));
  }

  // ----------------------------------------------------------------------------------------------- options

  /** Whitespace between an option's name and its assignment. */
  function TrailingSpace(s: string): (r: string)
    ensures r <= s
  {
    if s != "" && Lex(s).kind == Whitespace then Lex(s).text else ""
  }

  function ParseOption(s: string): (r: Attempt<Item>)
    requires s != ""
  {
    var name := Lex(s).text;
    var r1 := After(s, Lex(s));
    if r1 == "" then SyntaxError("Unexpected end of file after '" + name + "'")
    else
      var trailing := TrailingSpace(r1);
      var r2 := r1[|trailing|..];
      if r2 == "" || Lex(r2).kind != AssignOp then SyntaxError("Expected ':' or '=' after '" + name + "'")
      else
        var v := ParseValue(After(r2, Lex(r2)), "gcode" <= name);
        Success(OptionItem(name, trailing, Lex(r2).text, v.value), v.rest)
  }

  function UnexpectedToken(t: Token): string {
    UNEXPECTED + KindName(t.kind) + ": " + t.text + "'"
  }

  // ---------------------------------------------------------------------------------------------- recovery

  /** Whether a line can start afresh: a bracketed header or a word with an assignment. */
  predicate IsResyncLine(line: string) {
    line != "" &&
    if line[0] == '[' then ']' in line[..CommentBody(line)]
    else
      IsWordChar(line[0]) &&
      var n := 1 + WordTailLength(line[1..]);
      var q := line[n + BlankLength(line[n..])..];
      q != "" && (q[0] == ':' || q[0] == '=')
  }

  /** End of the first line of `s`, its newline included. */
  function NextLine(s: string): (n: nat)
    ensures n <= |s|
    ensures s != "" ==> n > 0
  {
    var n := LineLength(s);
    if n == |s| then n else n + 1
  }

  /** How many characters of whole lines precede the first line of `s` where parsing can resume. */
  function LinesUntil(resumes: string -> bool, s: string): (n: nat)
    ensures n <= |s|
    decreases |s|
  {
    if s == "" || resumes(s[..LineLength(s)]) then 0
    else NextLine(s) + LinesUntil(resumes, s[NextLine(s)..])
  }

  /** The first line, and the lines after it up to one where parsing can resume. */
  function SkipLength(resumes: string -> bool, s: string): (n: nat)
    ensures n <= |s|
    ensures s != "" ==> n > 0
  {
    NextLine(s) + LinesUntil(resumes, s[NextLine(s)..])
  }

  /** `Tokenizer.resync`: how much text is skipped from the start of a failed construct. */
  function ResyncLength(s: string, toEof: bool): (n: nat)
    ensures n <= |s|
    ensures s != "" ==> n > 0
  {
    if toEof then |s| else SkipLength(IsResyncLine, s)
  }

  predicate IsMarkerLine(line: string) {
    PARSE_ERROR_MARKER <= LStrip(line)
  }

  function DropMarkerLines(ls: seq<string>): seq<string> {
    if ls == [] then []
    else (if IsMarkerLine(ls[0]) then [] else [ls[0]]) + DropMarkerLines(ls[1..])
  }

  /** The skipped text without markers of an earlier run, unless nothing else is in it. */
  function WithoutMarkers(text: string): string {
    var r := JoinLines(DropMarkerLines(Lines(text)));
    if Strip(r) != "" then r else text
  }

  function MarkerText(reason: string): string {
    PARSE_ERROR_MARKER + ": " + reason + MARKER_END
  }

  function RecoveredItems(skipped: string, reason: string, marker: bool): seq<Item> {
    var text := WithoutMarkers(skipped);
    if text == "" then []
    else
      [UnparsedItem(text, reason)] +
      if !marker then []
      else
        (if EndsWith(text, "\n") then [] else [SpaceItem("\n")]) +
        [CommentItem([CommentText(MarkerText(reason))]), SpaceItem("\n")]
  }

  /** Everything the parser threads through its calls: text to read and recoveries made so far. */
  datatype Progress<+T> = Progress(value: T, rest: string, recoveries: nat)

  /** `Parser._recover` for a construct that starts at the front of `s`. */
  function Recover(s: string, reason: string, recoveries: nat, marker: bool): Progress<seq<Item>> {
    var n := ResyncLength(s, recoveries + 1 > MAX_RECOVERIES);
    Progress(RecoveredItems(s[..n], reason, marker), s[n..], recoveries + 1)
  }

  // -------------------------------------------------------------------------------- sections and documents

  /** The items made of one token, the same in a section and outside one. */
  function SimpleItem(t: Token): (r: Option<Item>)
    requires t.kind == Placeholder ==> |t.text| >= 2
  {
    match t.kind
    case HiddenOptionComment => Some(HiddenItem(t.text))
    case Whitespace => Some(SpaceItem(t.text))
    case Placeholder => Some(PlaceholderItem(Inner(t.text)))
    case Template => Some(TemplateItem(t.text))
    case _ => None
  }

  /** One construct of a section body. */
  function SectionStep(s: string, recoveries: nat, marker: bool): (r: Progress<seq<Item>>)
    requires s != ""
  {
    var t := Lex(s);
    if SimpleItem(t).Some? then Progress([SimpleItem(t).value], After(s, t), recoveries)
    else if t.kind == Comment then
      var c := ParseComment(s);
      Progress([CommentItem(c.value)], c.rest, recoveries)
    else if t.kind == Word then
      match ParseOption(s)
      case Success(item, rest) => Progress([item], rest, recoveries)
      case SyntaxError(reason) => Recover(s, reason, recoveries, marker)
    else Recover(s, UnexpectedToken(t), recoveries, marker)
  }

  predicate SectionEnds(s: string) {
    s == "" || Lex(s).kind == Section || IsMagicComment(Lex(s))
  }

  function SectionLoop(body: seq<Item>, s: string, recoveries: nat, marker: bool): (r: Progress<seq<Item>>)
    ensures |r.rest| <= |s|
    decreases |s|
  {
    if SectionEnds(s) then Progress(body, s, recoveries)
    else
      var step := SectionStep(s, recoveries, marker);
      SectionStepProgress(s, recoveries, marker);
      SectionLoop(body + step.value, step.rest, step.recoveries, marker)
  }

  function ParseSection(s: string, recoveries: nat, marker: bool): Progress<Block>
    requires s != "" && Lex(s).kind == Section
  {
    var r := SectionLoop([], After(s, Lex(s)), recoveries, marker);
    Progress(SectionBlock(Inner(Lex(s).text), r.value), r.rest, r.recoveries)
  }

  function AsBlocks(items: seq<Item>): (r: seq<Block>)
    ensures |r| == |items|
  {
    if items == [] then [] else [ItemBlock(items[0])] + AsBlocks(items[1..])
  }

  /** One construct outside every section. */
  function BlockStep(s: string, recoveries: nat, marker: bool): Progress<seq<Block>>
    requires s != ""
  {
    var t := Lex(s);
    if t.kind == Section then
      var r := ParseSection(s, recoveries, marker);
      Progress([r.value], r.rest, r.recoveries)
    else if SimpleItem(t).Some? then Progress([ItemBlock(SimpleItem(t).value)], After(s, t), recoveries)
    else if t.kind == Comment then
      var c := ParseComment(s);
      Progress([ItemBlock(CommentItem(c.value))], c.rest, recoveries)
    else
      var r := Recover(s, UnexpectedToken(t), recoveries, marker);
      Progress(AsBlocks(r.value), r.rest, r.recoveries)
  }

  /** The body of an exclusion block: everything to the end of the text. */
  function ExclusionLoop(body: seq<Block>, s: string, recoveries: nat, marker: bool): Progress<seq<Block>>
    decreases |s|
  {
    if s == "" then Progress(body, s, recoveries)
    else
      var step := BlockStep(s, recoveries, marker);
      BlockStepProgress(s, recoveries, marker);
      ExclusionLoop(body + step.value, step.rest, step.recoveries, marker)
  }

  function AsTops(blocks: seq<Block>): (r: seq<Top>)
    ensures |r| == |blocks|
  {
    if blocks == [] then [] else [Plain(blocks[0])] + AsTops(blocks[1..])
  }

  function DocumentLoop(body: Document, s: string, recoveries: nat, marker: bool, origin: Option<string>)
    : Progress<Document>
    decreases |s|
  {
    if s == "" then Progress(body, s, recoveries)
    else if IsMagicComment(Lex(s)) then
      var c := ParseComment(s);
      var r := ExclusionLoop([ItemBlock(CommentItem(c.value))], c.rest, recoveries, marker);
      Progress(body + [Exclusion(r.value, origin)], r.rest, r.recoveries)
    else
      var step := BlockStep(s, recoveries, marker);
      BlockStepProgress(s, recoveries, marker);
      DocumentLoop(body + AsTops(step.value), step.rest, step.recoveries, marker, origin)
  }

  /** Index after the last option of a section body. */
  function AfterLastOption(body: seq<Item>): (n: nat)
    ensures n <= |body|
  {
    if body == [] then 0
    else if body[|body| - 1].OptionItem? then |body|
    else AfterLastOption(body[..|body| - 1])
  }

  /** Where a section's own items end: after its last option and one whitespace item. */
  function SectionKeeps(body: seq<Item>): (n: nat)
    ensures n <= |body|
  {
    var n := AfterLastOption(body);
    if n < |body| && body[n].SpaceItem? then n + 1 else n
  }

  /** What `_post_process` turns one node of the document into. */
  function Lifted(top: Top): Document {
    if top.Plain? && top.block.SectionBlock? then
      var body := top.block.body;
      var n := SectionKeeps(body);
      [Plain(SectionBlock(top.block.name, body[..n]))] + AsTops(AsBlocks(body[n..]))
    else [top]
  }

  function PostProcess(doc: Document): Document {
    if doc == [] then [] else Lifted(doc[0]) + PostProcess(doc[1..])
  }

  /** `Parser.parse` */
  function Parse(buf: string, marker: bool, origin: Option<string>): Document {
    PostProcess(DocumentLoop([], buf, 0, marker, origin).value)
  }

  lemma SectionStepProgress(s: string, recoveries: nat, marker: bool)
    requires s != ""
    ensures |SectionStep(s, recoveries, marker).rest| < |s|
  {
    if Lex(s).kind == Comment {
      CommentProgress(s);
    } else if Lex(s).kind == Word && ParseOption(s).Success? {
      OptionProgress(s);
    }
  }

  lemma OptionProgress(s: string)
    requires s != "" && ParseOption(s).Success?
    ensures |ParseOption(s).rest| < |s|
  {
    var r1 := After(s, Lex(s));
    var trailing := TrailingSpace(r1);
    var r2 := r1[|trailing|..];
    ValueLoopProgress(EMPTY_VALUE, After(r2, Lex(r2)), "gcode" <= Lex(s).text);
  }

  lemma {:induction false} ValueLoopProgress(st: ValueState, s: string, asIs: bool)
    ensures |ValueLoop(st, s, asIs).rest| <= |s|
    decreases |s|
  {
    if s != "" && ValueStep(st, s, asIs).Some? {
      var next := ValueStep(st, s, asIs).value;
      ValueLoopProgress(next.value, next.rest, asIs);
    }
  }

  lemma BlockStepProgress(s: string, recoveries: nat, marker: bool)
    requires s != ""
    ensures |BlockStep(s, recoveries, marker).rest| < |s|
  {
    CommentProgress(s);
  }
}
