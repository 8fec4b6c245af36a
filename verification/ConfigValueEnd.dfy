/** Where the value of an option ends, said of the text alone: brackets and quotes are matched over the text as a
    whole, lines are looked at one by one, and the value ends at the first place that qualifies. */
module ConfigValueEnd {
  import opened Text
  import opened ConfigTokens
  import opened ConfigTree
  import opened ConfigGrammar
  import L = ConfigLossless
  import V = ConfigValues

  // ----------------------------------------------------------------------------------- brackets and quotes

  /** How much of `s` a quotation takes that was opened by `q` before it, its closing quote included; more than
      all of `s` when it is never closed. A backslash hides the character behind it. */
  function QuotedLength(s: string, q: char): (n: nat)
    ensures 0 < n <= |s| + 1
    decreases |s|
  {
    if s == "" || s[0] == q then 1
    else if s[0] == '\\' && |s| > 1 then 2 + QuotedLength(s[2..], q)
    else 1 + QuotedLength(s[1..], q)
  }

  predicate IsQuote(c: char) {
    c == '\'' || c == '"'
  }

  /** Whether `s` ends inside a quotation. */
  predicate InQuotation(s: string)
    decreases |s|
  {
    s != "" &&
    if s[0] == '\\' then |s| > 1 && InQuotation(s[2..])
    else if IsQuote(s[0]) then
      var n := QuotedLength(s[1..], s[0]);
      n == |s| || InQuotation(s[1 + n..])
    else InQuotation(s[1..])
  }

  /** The characters of `s` outside quotations that no backslash hides. */
  function Bare(s: string): string
    decreases |s|
  {
    if s == "" then ""
    else if s[0] == '\\' then (if |s| == 1 then "" else Bare(s[2..]))
    else if IsQuote(s[0]) then
      var n := QuotedLength(s[1..], s[0]);
      if n == |s| then "" else Bare(s[1 + n..])
    else [s[0]] + Bare(s[1..])
  }

  /** From some place on more brackets are opened than closed. */
  ghost predicate LeftOpen(s: string, open: char, close: char) {
    exists k | 0 <= k < |s| :: multiset(s[k..])[close] < multiset(s[k..])[open]
  }

  /** The end of `s` is inside a bracket or a quotation. */
  ghost predicate Inside(s: string) {
    || InQuotation(s)
    || LeftOpen(Bare(s), '{', '}') || LeftOpen(Bare(s), '[', ']') || LeftOpen(Bare(s), '(', ')')
  }

  // ----------------------------------------------------------------------------------------- lines around it

  /** Blanks, then a comment. */
  predicate IsCommentLine(line: string) {
    exists n | 0 <= n < |line| :: AllBlank(line[..n]) && (line[n] == '#' || line[n] == ';')
  }

  /** At least one blank, then text. */
  predicate IsIndentedLine(line: string) {
    exists n | 0 < n < |line| :: AllBlank(line[..n]) && !IsSpace(line[n])
  }

  /** After some comment lines, or none, an indented line of text comes. */
  predicate IndentedAfterComments(ls: seq<string>) {
    exists k | 0 <= k < |ls| ::
      (forall i | 0 <= i < k :: IsCommentLine(ls[i])) && !IsCommentLine(ls[k]) && IsIndentedLine(ls[k])
  }

  predicate GoesOnIndented(s: string) {
    IndentedAfterComments(Lines(s))
  }

  /** `variable_`, a name, blanks and an assignment. */
  predicate IsVariableOption(s: string) {
    "variable_" <= s &&
    exists i, j | 9 < i <= j < |s| ::
      && (forall k | 9 <= k < i :: IsWordChar(s[k])) && AllBlank(s[i..j]) && (s[j] == ':' || s[j] == '=')
  }

  /** Behind blanks and line breaks, a bracket or an option that sets a variable. */
  predicate GcodeIsOver(s: string) {
    exists m | 0 <= m < |s| ::
      && (forall i | 0 <= i < m :: s[i] in " \t\r\n")
      && (s[m] == '[' || IsVariableOption(s[m..]))
  }

  /** Whitespace up to its first line break, all of it when it starts with one or has none. */
  function UpToBreak(text: string): (r: string)
    ensures r <= text
    ensures text != "" ==> r != ""
  {
    var n := LineLength(text);
    var k := if 0 < n < |text| && text[n - 1] == '\r' then n - 1 else n;
    if k == 0 then text else text[..k]
  }

  // ------------------------------------------------------------------------------------------ what is read

  /** How much is read at once: whitespace up to a line break, a comment, or a token. */
  function Stride(s: string, asIs: bool): (n: nat)
    requires s != ""
    ensures 0 < n <= |s|
  {
    CommentProgress(s);
    var t := Lex(s);
    if t.kind == Whitespace then |UpToBreak(t.text)|
    else if t.kind == Comment && !asIs then |s| - |ParseComment(s).rest|
    else |t.text|
  }

  /** Comments do not count as text of the value, nor do placeholders outside gcode. */
  predicate Counts(s: string, asIs: bool)
    requires s != ""
  {
    Lex(s).kind != Comment && (Lex(s).kind == Placeholder ==> asIs)
  }

  /** What one stride adds to the text of the value. */
  function Added(s: string, asIs: bool): string
    requires s != ""
  {
    if Counts(s, asIs) then s[..Stride(s, asIs)] else ""
  }

  /** The text of the value read so far, and what is left to read. */
  datatype Reading = Reading(text: string, rest: string)

  function Onward(r: Reading, asIs: bool): Reading {
    if r.rest == "" then r else Reading(r.text + Added(r.rest, asIs), r.rest[Stride(r.rest, asIs)..])
  }

  /** Whitespace, with `s` behind it, that ends a value with the text `text`: it goes from one line break to another,
      or is a single one, outside brackets and quotations; no comment lines lead on to an indented line, or for gcode
      a header or a variable comes next. */
  ghost predicate IsEndingSpace(text: string, space: string, s: string, asIs: bool)
    requires space != ""
  {
    && space[0] == '\n' && space[|space| - 1] == '\n' && !Inside(text)
    && if asIs then GcodeIsOver(s) else !(space == "\n" && GoesOnIndented(s))
  }

  /** A value read so far ends here: at the end of everything, at such whitespace, and for gcode at a header. */
  ghost predicate IsEnd(r: Reading, asIs: bool) {
    r.rest == "" ||
    var t := Lex(r.rest);
    || (asIs && t.kind == Section)
    || (t.kind == Whitespace && IsEndingSpace(r.text, t.text, After(r.rest, t), asIs))
  }

  /** The first end from a reading on. */
  ghost function FirstEnd(r: Reading, asIs: bool): (end: Reading)
    ensures IsEnd(end, asIs)
    decreases |r.rest|
  {
    if IsEnd(r, asIs) then r else FirstEnd(Onward(r, asIs), asIs)
  }

  // ------------------------------------------------------------------------- the running balance is this nesting

  /** A count of open brackets that never goes below zero. */
  function Depth(d: nat, s: string, open: char, close: char): nat
    decreases |s|
  {
    if s == "" then d
    else Depth(if s[0] == open then d + 1 else if s[0] == close then Less(d) else d, s[1..], open, close)
  }

  lemma CountFront(s: string, c: char)
    requires s != ""
    ensures multiset(s)[c] == multiset(s[1..])[c] + (if s[0] == c then 1 else 0)
  {
    assert s == [s[0]] + s[1..];
  }

  lemma LeftOpenLater(s: string, open: char, close: char)
    requires s != "" && LeftOpen(s[1..], open, close)
    ensures LeftOpen(s, open, close)
  {
    var r := s[1..];
    var k :| 0 <= k < |r| && multiset(r[k..])[close] < multiset(r[k..])[open];
    assert s[k + 1..] == r[k..];
  }

  lemma LeftOpenFirst(s: string, open: char, close: char)
    requires s != "" && LeftOpen(s, open, close)
    ensures multiset(s)[close] < multiset(s)[open] || LeftOpen(s[1..], open, close)
  {
    var r := s[1..];
    var k :| 0 <= k < |s| && multiset(s[k..])[close] < multiset(s[k..])[open];
    if k == 0 {
      assert s[0..] == s;
    } else {
      assert s[k..] == r[k - 1..];
      assert r != "";
    }
  }

  lemma LeftOpenFront(s: string, open: char, close: char)
    requires s != "" && open != close
    ensures LeftOpen(s, open, close) <==>
            multiset(s)[close] < multiset(s)[open] || LeftOpen(s[1..], open, close)
    ensures multiset(s)[open] == multiset(s[1..])[open] + (if s[0] == open then 1 else 0)
    ensures multiset(s)[close] == multiset(s[1..])[close] + (if s[0] == close then 1 else 0)
  {
    CountFront(s, open);
    CountFront(s, close);
    assert s[0..] == s;
    if LeftOpen(s[1..], open, close) {
      LeftOpenLater(s, open, close);
    }
    if LeftOpen(s, open, close) {
      LeftOpenFirst(s, open, close);
    }
  }

  lemma {:induction false} DepthIs(d: nat, s: string, open: char, close: char)
    requires open != close
    ensures Depth(d, s, open, close) > 0 <==>
            multiset(s)[close] < d + multiset(s)[open] || LeftOpen(s, open, close)
    decreases |s|
  {
    if s != "" {
      LeftOpenFront(s, open, close);
      DepthIs(if s[0] == open then d + 1 else if s[0] == close then Less(d) else d, s[1..], open, close);
      if s[1..] != "" {
        LeftOpenFront(s[1..], open, close);
      }
    }
  }

  /** The balance inside or outside a quotation. */
  function Quoting(b: Balance, q: char, on: bool): Balance {
    if q == '\'' then b.(inSq := on) else b.(inDq := on)
  }

  ghost predicate AtRest(b: Balance) {
    !b.inSq && !b.inDq && !b.esc
  }

  lemma ScanTwo(b: Balance, s: string)
    requires |s| > 1
    ensures ScanBalance(b, s) == ScanBalance(ScanChar(ScanChar(b, s[0]), s[1]), s[2..])
  {
    assert s[1..][1..] == s[2..];
  }

  lemma {:induction false} QuotationScanned(b: Balance, s: string, q: char)
    requires AtRest(b) && IsQuote(q)
    ensures var n := QuotedLength(s, q);
            if n <= |s| then ScanBalance(Quoting(b, q, true), s) == ScanBalance(b, s[n..])
            else ScanBalance(Quoting(b, q, true), s).(esc := false) == Quoting(b, q, true)
    decreases |s|
  {
    if s != "" && s[0] != q {
      if s[0] == '\\' && |s| > 1 {
        ScanTwo(Quoting(b, q, true), s);
        QuotationScanned(b, s[2..], q);
      } else {
        if s[0] == '\\' {
          assert ScanBalance(Quoting(b, q, true).(esc := true), s[1..]) == Quoting(b, q, true).(esc := true);
        }
        QuotationScanned(b, s[1..], q);
      }
    }
  }

  /** The balance after `s`: in a quotation exactly when the text is, and the depths those of the bare text. */
  lemma {:induction false} ScanIs(b: Balance, s: string)
    requires AtRest(b)
    ensures var r := ScanBalance(b, s);
            && (r.inSq || r.inDq <==> InQuotation(s))
            && r.brace == Depth(b.brace, Bare(s), '{', '}')
            && r.bracket == Depth(b.bracket, Bare(s), '[', ']')
            && r.paren == Depth(b.paren, Bare(s), '(', ')')
    decreases |s|
  {
    if s == "" {
    } else if s[0] == '\\' {
      if |s| > 1 {
        ScanTwo(b, s);
        ScanIs(b, s[2..]);
      } else {
        assert ScanBalance(b, s) == ScanBalance(b.(esc := true), s[1..]);
      }
    } else if IsQuote(s[0]) {
      QuotationScanned(b, s[1..], s[0]);
      var n := QuotedLength(s[1..], s[0]);
      if n < |s| {
        assert s[1..][n..] == s[1 + n..];
        ScanIs(b, s[1 + n..]);
      }
    } else {
      ScanIs(ScanChar(b, s[0]), s[1..]);
      assert ([s[0]] + Bare(s[1..]))[1..] == Bare(s[1..]);
    }
  }

  /** The running balance is closed exactly outside brackets and quotations. */
  lemma ClosedIsOutside(s: string)
    ensures Closed(ScanBalance(BALANCED, s)) <==> !Inside(s)
  {
    ScanIs(BALANCED, s);
    DepthOpen(Bare(s), '{', '}');
    DepthOpen(Bare(s), '[', ']');
    DepthOpen(Bare(s), '(', ')');
  }

  lemma DepthOpen(s: string, open: char, close: char)
    requires open != close
    ensures Depth(0, s, open, close) > 0 <==> LeftOpen(s, open, close)
  {
    DepthIs(0, s, open, close);
    if s != "" {
      LeftOpenFront(s, open, close);
    }
  }

  // ------------------------------------------------------------------------------ the line rules are these lines

  lemma CommentLineIs(line: string)
    ensures StartsComment(line) <==> IsCommentLine(line)
  {
    BlankBefore(line);
    if IsCommentLine(line) {
      var n :| 0 <= n < |line| && AllBlank(line[..n]) && (line[n] == '#' || line[n] == ';');
      BlankLengthOnly(line, n);
    }
  }

  lemma IndentedLineIs(line: string)
    ensures IsContinuationLine(line) <==> IsIndentedLine(line)
  {
    BlankBefore(line);
    if IsIndentedLine(line) {
      var n :| 0 < n < |line| && AllBlank(line[..n]) && !IsSpace(line[n]);
      BlankLengthOnly(line, n);
    }
  }

  lemma FirstLineDecides(x: string, ls: seq<string>)
    ensures IndentedAfterComments([x] + ls) <==>
            if IsCommentLine(x) then IndentedAfterComments(ls) else IsIndentedLine(x)
  {
    var all := [x] + ls;
    if IsCommentLine(x) && IndentedAfterComments(ls) {
      var k :| 0 <= k < |ls| && (forall i | 0 <= i < k :: IsCommentLine(ls[i])) && !IsCommentLine(ls[k])
               && IsIndentedLine(ls[k]);
      assert all[k + 1] == ls[k];
    } else if !IsCommentLine(x) && IsIndentedLine(x) {
      assert all[0] == x;
    }
    if IndentedAfterComments(all) {
      var k :| 0 <= k < |all| && (forall i | 0 <= i < k :: IsCommentLine(all[i])) && !IsCommentLine(all[k])
               && IsIndentedLine(all[k]);
      if IsCommentLine(x) {
        assert all[k] == ls[k - 1];
        assert forall i | 0 <= i < k - 1 :: ls[i] == all[i + 1];
      } else {
        assert all[0] == x;
      }
    }
  }

  lemma {:induction false} ContinuationIs(s: string)
    ensures ContinuationFollows(s) <==> GoesOnIndented(s)
    decreases |s|
  {
    var n := LineLength(s);
    CommentLineIs(s[..n]);
    IndentedLineIs(s[..n]);
    if n < |s| {
      ContinuationIs(s[n + 1..]);
      FirstLineDecides(s[..n], Lines(s[n + 1..]));
    } else {
      assert s[..n] == s && Lines(s) == [s] + [];
      FirstLineDecides(s, []);
    }
  }

  lemma {:induction false} NameIs(s: string)
    ensures forall k | 0 <= k < VariableNameLength(s) :: IsWordChar(s[k])
    ensures VariableNameLength(s) < |s| ==> !IsWordChar(s[VariableNameLength(s)])
  {
    if s != "" && IsWordChar(s[0]) {
      NameIs(s[1..]);
    }
  }

  lemma VariableOptionIs(s: string)
    ensures IsVariableLine(s) <==> IsVariableOption(s)
  {
    if "variable_" <= s {
      var r := s[9..];
      var n := VariableNameLength(r);
      NameIs(r);
      BlankBefore(r[n..]);
      var b := BlankLength(r[n..]);
      if IsVariableLine(s) {
        assert s[9 + n..9 + n + b] == r[n..][..b];
        assert r[n + b..][0] == s[9 + n + b];
        assert forall k | 9 <= k < 9 + n :: s[k] == r[k - 9];
      }
      if IsVariableOption(s) {
        var i, j :| 9 < i <= j < |s| && (forall k | 9 <= k < i :: IsWordChar(s[k])) && AllBlank(s[i..j])
                    && (s[j] == ':' || s[j] == '=');
        VariableFound(s, r, i, j);
      }
    }
  }

  lemma SliceOfDrop(s: string, k: nat, i: nat, j: nat)
    requires k <= i <= j <= |s|
    ensures s[k..][i - k..] == s[i..] && s[i..][..j - i] == s[i..j] && s[k..][j - k..] == s[j..]
    ensures j < |s| ==> s[i..][j - i] == s[j]
  {
  }

  lemma NameEnds(s: string, r: string, i: nat)
    requires 9 <= i < |s| && r == s[9..] && (forall k | 9 <= k < i :: IsWordChar(s[k])) && !IsWordChar(s[i])
    ensures VariableNameLength(r) == i - 9
  {
    NameIs(r);
    assert forall k | 0 <= k < i - 9 :: r[k] == s[k + 9];
    assert r[i - 9] == s[i];
  }

  lemma VariableFound(s: string, r: string, i: nat, j: nat)
    requires "variable_" <= s && r == s[9..] && 9 < i <= j < |s|
    requires (forall k | 9 <= k < i :: IsWordChar(s[k])) && AllBlank(s[i..j]) && (s[j] == ':' || s[j] == '=')
    ensures IsVariableLine(s)
  {
    if i < j {
      assert s[i..j][0] == s[i];
    }
    NameEnds(s, r, i);
    SliceOfDrop(s, 9, i, j);
    BlankLengthOnly(s[i..], j - i);
    assert s[j..][0] == s[j];
  }

  lemma {:induction false} MarginIs(s: string)
    ensures forall i | 0 <= i < MarginLength(s) :: s[i] in " \t\r\n"
    ensures MarginLength(s) < |s| ==> s[MarginLength(s)] !in " \t\r\n"
  {
    if s != "" && (IsBlank(s[0]) || s[0] == '\r' || s[0] == '\n') {
      MarginIs(s[1..]);
    }
  }

  lemma BoundaryFound(s: string, m: nat)
    requires m < |s| && (forall i | 0 <= i < m :: s[i] in " \t\r\n") && (s[m] == '[' || IsVariableOption(s[m..]))
    ensures LooksLikeGcodeBoundary(s)
  {
    MarginIs(s);
    VariableOptionIs(s[m..]);
    assert s[m] == s[m..][0];
    assert s[m] == '[' || s[m] == 'v';
    assert MarginLength(s) == m;
  }

  lemma GcodeOverIs(s: string)
    ensures LooksLikeGcodeBoundary(s) <==> GcodeIsOver(s)
  {
    if LooksLikeGcodeBoundary(s) {
      MarginIs(s);
      VariableOptionIs(s[MarginLength(s)..]);
      assert s[MarginLength(s)] == s[MarginLength(s)..][0];
    }
    if GcodeIsOver(s) {
      var m :| 0 <= m < |s| && (forall i | 0 <= i < m :: s[i] in " \t\r\n")
               && (s[m] == '[' || IsVariableOption(s[m..]));
      BoundaryFound(s, m);
    }
  }

  lemma {:induction false} FirstBreakIs(s: string)
    ensures var n := LineLength(s);
            BreakIndex(s) == if 0 < n < |s| && s[n - 1] == '\r' then n - 1 else n
  {
    LineLengthIs(s);
    var n := LineLength(s);
    if s != "" && n > 0 {
      FirstBreakIs(s[1..]);
      LineLengthOnly(s[1..], n - 1);
    }
  }

  lemma UpToBreakIs(text: string)
    ensures TakenSpace(text) == UpToBreak(text)
  {
    FirstBreakIs(text);
    var n := BreakIndex(text);
    if n == |text| {
      assert text[..n] == text;
    }
  }

  lemma {:induction false} NoNewlines(s: string)
    ensures CountNewlines(s) == 0 <==> '\n' !in s
  {
    if s != "" {
      NoNewlines(s[1..]);
      assert s == [s[0]] + s[1..];
    }
  }

  lemma OneNewline(text: string)
    requires text != "" && text[0] == '\n' && text[|text| - 1] == '\n'
    ensures CountNewlines(text) == 1 <==> text == "\n"
  {
    NoNewlines(text[1..]);
    if |text| > 1 {
      assert text[1..][|text| - 2] == '\n';
    }
  }

  lemma ContinuesIs(text: string, s: string)
    requires text != "" && text[0] == '\n' && text[|text| - 1] == '\n'
    ensures ContinuesAfterComments(text, s) <==> text == "\n" && GoesOnIndented(s)
  {
    OneNewline(text);
    ContinuationIs(s);
  }

  lemma EndsValueIs(st: ValueState, text: string, space: string, s: string, asIs: bool)
    requires space != "" && st.balance == ScanBalance(BALANCED, text)
    ensures EndsValue(st, space, s, asIs) <==> IsEndingSpace(text, space, s, asIs)
  {
    ClosedIsOutside(text);
    GcodeOverIs(s);
    if space[0] == '\n' && space[|space| - 1] == '\n' {
      ContinuesIs(space, s);
    }
  }

  /** The rule the parser applies is the one stated here. */
  lemma EndIs(st: ValueState, text: string, s: string, asIs: bool)
    requires s != "" && st.balance == ScanBalance(BALANCED, text)
    ensures ValueStep(st, s, asIs).None? <==> IsEnd(Reading(text, s), asIs)
  {
    var t := Lex(s);
    EndsValueIs(st, text, t.text, After(s, t), asIs);
  }

  // --------------------------------------------------------------------------------------------- the theorem

  ghost predicate NothingYet(st: ValueState) {
    st.lines == [] && st.line == [] && st.entry == ""
  }

  lemma {:induction false} SplitKeeps(st: ValueState)
    ensures SplitEntry(st).balance == st.balance
    ensures NothingYet(SplitEntry(st)) ==> NothingYet(st)
    decreases |st.entry|
  {
    var n := LineLength(st.entry);
    if n < |st.entry| {
      SplitKeeps(ValueState(st.lines + [st.line + [Entry(st.entry[..n + 1])]], [], st.entry[n + 1..], st.balance));
    }
  }

  lemma {:induction false} SpaceScanned(s: string)
    requires AllSpace(s)
    ensures ScanBalance(BALANCED, s) == BALANCED
    decreases |s|
  {
    if s != "" {
      assert IsSpace(s[0]);
      SpaceScanned(s[1..]);
    }
  }

  lemma StrideRest(st: ValueState, s: string, asIs: bool)
    requires s != "" && ValueStep(st, s, asIs).Some?
    ensures ValueStep(st, s, asIs).value.rest == s[Stride(s, asIs)..]
  {
    var t := Lex(s);
    if t.kind == Whitespace {
      UpToBreakIs(t.text);
    } else if t.kind == Comment && !asIs {
      V.CommentSuffix(s);
    }
  }

  lemma AddSpaceBalance(st: ValueState, space: string, text: string)
    requires AllSpace(space) && space != ""
    requires st.balance == ScanBalance(BALANCED, text) && (NothingYet(st) ==> text == "")
    ensures !NothingYet(AddSpace(st, space)) && AddSpace(st, space).balance == ScanBalance(BALANCED, text + space)
  {
    if NothingYet(st) {
      SpaceScanned(space);
      assert text + space == space;
      SplitKeeps(st.(line := [Space(space)]));
    } else {
      ScanAppend(BALANCED, text, space);
      SplitKeeps(st.(entry := st.entry + space, balance := ScanBalance(st.balance, space)));
    }
  }

  lemma StrideStep(st: ValueState, s: string, text: string, asIs: bool)
    requires s != "" && ValueStep(st, s, asIs).Some?
    requires st.balance == ScanBalance(BALANCED, text) && (NothingYet(st) ==> text == "")
    ensures var r := ValueStep(st, s, asIs).value.value;
            !NothingYet(r) && r.balance == ScanBalance(BALANCED, text + Added(s, asIs))
  {
    var t := Lex(s);
    L.Empties(text);
    if t.kind == Whitespace {
      UpToBreakIs(t.text);
      var taken := UpToBreak(t.text);
      assert s[..|taken|] == taken == Added(s, asIs);
      AddSpaceBalance(st, taken, text);
    } else if Counts(s, asIs) {
      assert Added(s, asIs) == t.text;
      ScanAppend(BALANCED, text, t.text);
    }
  }

  predicate GoesOn(st: ValueState, s: string, asIs: bool) {
    s != "" && ValueStep(st, s, asIs).Some?
  }

  /** The state follows the text read so far. */
  ghost predicate Tracks(st: ValueState, text: string) {
    st.balance == ScanBalance(BALANCED, text) && (NothingYet(st) ==> text == "")
  }

  lemma EndOrGoesOn(st: ValueState, r: Reading, asIs: bool)
    requires Tracks(st, r.text)
    ensures GoesOn(st, r.rest, asIs) <==> !IsEnd(r, asIs)
    ensures IsEnd(r, asIs) ==> ValueLoop(st, r.rest, asIs).rest == r.rest
  {
    if r.rest != "" {
      EndIs(st, r.text, r.rest, asIs);
    }
  }

  /** What a piece has of the text of a value: everything but comments and placeholders. */
  function PlainPiece(p: Piece): string {
    if p.Entry? || p.Space? then p.text else ""
  }

  lemma PlainStep(st: ValueState, s: string)
    requires GoesOn(st, s, false)
    ensures L.StateText(PlainPiece, ValueStep(st, s, false).value.value)
            == L.StateText(PlainPiece, st) + Added(s, false)
  {
    var t := Lex(s);
    L.Empties(L.StateText(PlainPiece, st));
    if t.kind == Whitespace {
      UpToBreakIs(t.text);
      var taken := UpToBreak(t.text);
      assert s[..|taken|] == taken == Added(s, false);
      L.AddSpaceText(PlainPiece, st, taken);
    } else if t.kind == Comment {
      L.AddPieceText(PlainPiece, st, Remark(ParseComment(s).value));
    } else if t.kind == Placeholder {
      L.AddPieceText(PlainPiece, st, Slot(Inner(t.text)));
    } else {
      assert Added(s, false) == t.text;
      Associate(Render(PlainPiece, st.lines) + Concat(PlainPiece, st.line), st.entry, t.text);
    }
  }

  /** The state at a reading, with the whole loop still to come from there. */
  ghost predicate Follows(st: ValueState, r: Reading, s: string, asIs: bool) {
    && Tracks(st, r.text) && ValueLoop(st, r.rest, asIs) == ParseValue(s, asIs)
    && (!asIs ==> L.StateText(PlainPiece, st) == r.text)
  }

  lemma AtEnd(st: ValueState, r: Reading, s: string, asIs: bool)
    requires Follows(st, r, s, asIs) && IsEnd(r, asIs)
    ensures ParseValue(s, asIs).rest == r.rest
    ensures !asIs ==> Render(PlainPiece, ParseValue(s, asIs).value) == r.text
  {
    EndOrGoesOn(st, r, asIs);
    L.FinishValueText(PlainPiece, st);
  }

  function NextState(st: ValueState, s: string, asIs: bool): ValueState {
    if GoesOn(st, s, asIs) then ValueStep(st, s, asIs).value.value else st
  }

  lemma Round(st: ValueState, r: Reading, s: string, asIs: bool) returns (st': ValueState, r': Reading)
    requires Follows(st, r, s, asIs) && GoesOn(st, r.rest, asIs)
    ensures st' == NextState(st, r.rest, asIs) && r' == Onward(r, asIs)
    ensures Follows(st', r', s, asIs)
  {
    StrideRest(st, r.rest, asIs);
    StrideStep(st, r.rest, r.text, asIs);
    if !asIs {
      PlainStep(st, r.rest);
    }
    st', r' := NextState(st, r.rest, asIs), Onward(r, asIs);
  }

  lemma NotYet(r: Reading, r': Reading, asIs: bool)
    requires !IsEnd(r, asIs) && r' == Onward(r, asIs)
    ensures FirstEnd(r, asIs) == FirstEnd(r', asIs) && |r'.rest| < |r.rest|
  {
  }

  lemma {:induction false} EndsAtFirst(st: ValueState, r: Reading, s: string, asIs: bool)
    requires Follows(st, r, s, asIs)
    ensures var end := FirstEnd(r, asIs);
            && ParseValue(s, asIs).rest == end.rest
            && (!asIs ==> Render(PlainPiece, ParseValue(s, asIs).value) == end.text)
    decreases |r.rest|
  {
    if IsEnd(r, asIs) {
      AtEnd(st, r, s, asIs);
    } else {
      EndOrGoesOn(st, r, asIs);
      var st', r' := Round(st, r, s, asIs);
      NotYet(r, r', asIs);
      EndsAtFirst(st', r', s, asIs);
    }
  }

  /** A value ends at the first place that is an end: never at a line break inside a bracket or a quotation, never
      before comment lines that lead on to an indented line; and for gcode only before a header or a variable. The
      text in which brackets and quotations are matched is the value's own, without comments and placeholders. */
  lemma ValueEnds(s: string, asIs: bool)
    ensures var end := FirstEnd(Reading("", s), asIs);
            && ParseValue(s, asIs).rest == end.rest
            && (!asIs ==> Render(PlainPiece, ParseValue(s, asIs).value) == end.text)
  {
    EndsAtFirst(EMPTY_VALUE, Reading("", s), s, asIs);
  }

  /** What ends a value that is not gcode, said of the parsed lines alone. */
  lemma EndsOutside(s: string)
    ensures var v := ParseValue(s, false);
            v.rest == "" ||
            var t := Lex(v.rest);
            t.kind == Whitespace && IsEndingSpace(Render(PlainPiece, v.value), t.text, After(v.rest, t), false)
  {
    ValueEnds(s, false);
  }
}
