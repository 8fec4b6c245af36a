/** Markers do not stack: the text a parse leaves behind, with or without its markers, is read the same way. */
module ConfigMarkers {
  import opened Text
  import opened ConfigTokens
  import opened ConfigTree
  import opened ConfigGrammar
  import opened ConfigLossless
  import opened ConfigLocality
  import opened ConfigReread
  import opened ConfigRegions
  import opened ConfigFailures

  // ------------------------------------------------------------------------------ two texts that look the same

  /** The two texts are one, or they differ only behind whole lines that hide the difference. */
  ghost predicate Alike(s: string, y: string) {
    s == y || exists a: string, c: Cut :: IsSwap(s, y, a, c)
  }

  ghost predicate IsSwap(s: string, y: string, a: string, c: Cut) {
    Sound(c) && s == Old(a, c) && y == New(a, c)
  }

  /** What text far ahead shows of itself. */
  ghost predicate ShowsSame(s: string, y: string) {
    && ('}' in s <==> '}' in y) && FirstStop(s) == FirstStop(y) && (NoPair(s) <==> NoPair(y))
    && (Resumes(s) <==> Resumes(y)) && (s == "" <==> y == "")
  }

  lemma StopAhead(w: string, q: string)
    ensures FirstStop(w + q) == if NameLength(w) < |w| then FirstStop(w) else FirstStop(q)
  {
    if NameLength(w) < |w| {
      NameStops(w, q);
      assert (w + q)[NameLength(w)] == w[NameLength(w)];
    } else {
      NameJoin(w, q);
      assert NameLength(q) < |q| ==> (w + q)[|w| + NameLength(q)] == q[NameLength(q)];
    }
  }

  lemma AlikeShowsSame(s: string, y: string)
    requires Alike(s, y)
    ensures ShowsSame(s, y)
  {
    if s != y {
      var a: string, c: Cut :| IsSwap(s, y, a, c);
      Whole(a, c.u);
      SwapShowsSame(a, c);
      ResumesAhead(a + c.u, c.q);
      ResumesAhead(a + c.u, c.q2);
    }
  }

  lemma ResumesAhead(w: string, q: string)
    requires EndsLine(w)
    ensures Resumes(w + q) <==> IsResyncLine(w[..LineLength(w)])
  {
    FirstLine(w, q);
  }

  lemma SwapShowsSame(a: string, c: Cut)
    requires Sound(c)
    ensures var s, y := Old(a, c), New(a, c);
            ('}' in s <==> '}' in y) && FirstStop(s) == FirstStop(y) && (NoPair(s) <==> NoPair(y))
  {
    var w := a + c.u;
    Whole(a, c.u);
    InAppend(w, c.q, '}');
    InAppend(w, c.q2, '}');
    assert c.u[0] in w;
    NoPairAppend(w, c.q);
    NoPairAppend(w, c.q2);
    StopAhead(w, c.q);
    StopAhead(w, c.q2);
    if NameLength(w) == |w| {
      NameSuffix(w, |a|);
      assert w[|a|..] == c.u;
    }
  }

  /** A marker behind a failed construct hides from everything before it. */
  lemma MarkerHides(u: string, line: string, r: string, y: string)
    requires EndsLine(u) && !IsSpace(u[0]) && Unobtrusive(line, u)
    requires ShowsSame(r, y) && Resumes(r)
    ensures Sound(Cut(u, r, line + y)) && Sound(Cut(u, line + r, y))
  {
    BehindMarker(line, r);
    BehindMarker(line, y);
    ResumedText(r);
    ResumedText(y);
  }

  lemma BehindMarker(line: string, r: string)
    requires EndsLine(line) && line[0] == '#' && LineLength(line) == |line| - 1 && NoPair(line) && Resumes(r)
    ensures '}' in line + r <==> '}' in line || '}' in r
    ensures NameLength(line) == |line| ==> FirstStop(line + r) == FirstStop(r)
    ensures NoPair(line + r) <==> NoPair(r)
    ensures !ContinuationFollows(line + r)
    ensures NoAssign(line + r) && NoAssign(r)
  {
    InAppend(line, r, '}');
    StopAhead(line, r);
    NoPairAppend(line, r);
    ResumedText(r);
    CommentContinues(line, r);
  }

  /** A comment line is looked past when a value ends. */
  lemma CommentContinues(line: string, r: string)
    requires EndsLine(line) && line[0] == '#' && LineLength(line) == |line| - 1
    ensures ContinuationFollows(line + r) <==> ContinuationFollows(r)
  {
    FirstLine(line, r);
    var first := line[..LineLength(line)];
    assert |line| > 1;
    assert first[0] == '#' && BlankLength(first) == 0;
    assert line[LineLength(line) + 1..] + r == r;
  }

  // ---------------------------------------------------------------------------------------- the run of a parse

  /** The text written for what is read from `s` on; sections and exclusion blocks only decide where options are
      read and do not show otherwise. */
  function RunText(s: string, recoveries: nat, marker: bool, inSection: bool): string
    decreases |s|
  {
    if s == "" then ""
    else if Lex(s).kind == Section then Lex(s).text + RunText(After(s, Lex(s)), recoveries, marker, true)
    else
      var step := ItemStep(s, recoveries, marker, inSection);
      ItemStepProgress(s, recoveries, marker, inSection);
      ItemsText(step.value) + RunText(step.rest, step.recoveries, marker, StaysInside(s, inSection))
  }

  predicate StaysInside(s: string, inSection: bool)
    requires s != ""
  {
    inSection && !IsMagicComment(Lex(s))
  }

  lemma ItemStepProgress(s: string, recoveries: nat, marker: bool, inSection: bool)
    requires s != ""
    ensures |ItemStep(s, recoveries, marker, inSection).rest| < |s|
  {
    if Failure(s, inSection).None? {
      ConstructKinds(s, inSection);
      if SimpleItem(Lex(s)).Some? {
        SimpleConstruct(s, inSection);
      } else if Lex(s).kind == Comment {
        CommentConstruct(s, inSection);
        CommentProgress(s);
      } else {
        OptionConstruct(s);
        OptionProgress(s);
      }
    }
  }

  lemma ConstructText(s: string, inSection: bool)
    requires s != "" && Failure(s, inSection).None?
    ensures ItemText(Construct(s, inSection).value) + Construct(s, inSection).rest == s
  {
    ConstructKinds(s, inSection);
    if SimpleItem(Lex(s)).Some? {
      SimpleConstruct(s, inSection);
      SimpleItemText(Lex(s));
      Rejoin(Lex(s).text, s);
    } else if Lex(s).kind == Comment {
      CommentConstruct(s, inSection);
      ParseCommentText(s);
    } else {
      OptionConstruct(s);
      OptionText(s);
    }
  }

  lemma {:induction false} SectionRunText(body: seq<Item>, s: string, recoveries: nat, marker: bool)
    ensures var r := SectionLoop(body, s, recoveries, marker);
            ItemsText(r.value) + RunText(r.rest, r.recoveries, marker, false)
            == ItemsText(body) + RunText(s, recoveries, marker, true)
    decreases |s|
  {
    if SectionEnds(s) {
      if s != "" && Lex(s).kind != Section {
        MagicAnywhere(s, recoveries, marker);
      }
    } else {
      var step := SectionStep(s, recoveries, marker);
      SectionStepIs(s, recoveries, marker);
      SectionStepProgress(s, recoveries, marker);
      SectionRunText(body + step.value, step.rest, step.recoveries, marker);
      ConcatAppend(ItemText, body, step.value);
      Associate(ItemsText(body), ItemsText(step.value), RunText(step.rest, step.recoveries, marker, true));
    }
  }

  /** The comment that ends a section is read the same way outside it. */
  lemma MagicAnywhere(s: string, recoveries: nat, marker: bool)
    requires s != "" && IsMagicComment(Lex(s))
    ensures ItemStep(s, recoveries, marker, true) == ItemStep(s, recoveries, marker, false)
    ensures ItemStep(s, recoveries, marker, false) ==
            Progress([CommentItem(ParseComment(s).value)], ParseComment(s).rest, recoveries)
    ensures RunText(s, recoveries, marker, true) == RunText(s, recoveries, marker, false)
  {
    CommentConstruct(s, true);
    CommentConstruct(s, false);
  }

  lemma {:induction false} ExclusionRunText(body: seq<Block>, s: string, recoveries: nat, marker: bool)
    ensures BlocksText(ExclusionLoop(body, s, recoveries, marker).value)
            == BlocksText(body) + RunText(s, recoveries, marker, false)
    decreases |s|
  {
    if s != "" {
      var step := BlockStep(s, recoveries, marker);
      BlockRunText(s, recoveries, marker);
      BlockStepProgress(s, recoveries, marker);
      ExclusionRunText(body + step.value, step.rest, step.recoveries, marker);
      ConcatAppend(BlockText, body, step.value);
      Associate(BlocksText(body), BlocksText(step.value), RunText(step.rest, step.recoveries, marker, false));
    }
  }

  lemma BlockRunText(s: string, recoveries: nat, marker: bool)
    requires s != ""
    ensures var step := BlockStep(s, recoveries, marker);
            BlocksText(step.value) + RunText(step.rest, step.recoveries, marker, false)
            == RunText(s, recoveries, marker, false)
  {
    var t := Lex(s);
    var step := BlockStep(s, recoveries, marker);
    if t.kind == Section {
      var r := SectionLoop([], After(s, t), recoveries, marker);
      SectionRunText([], After(s, t), recoveries, marker);
      ConcatOne(BlockText, step.value[0]);
      BracketsText(t.text);
      HeaderRegroup(t.text, ItemsText(r.value), RunText(r.rest, r.recoveries, marker, false),
                    RunText(After(s, t), recoveries, marker, true));
    } else {
      BlockStepIs(s, recoveries, marker);
      AsBlocksText(ItemStep(s, recoveries, marker, false).value);
    }
  }

  lemma HeaderRegroup(header: string, items: string, rest: string, all: string)
    requires items + rest == "" + all
    ensures header + items + rest == header + all
  {
    Associate(header, items, rest);
    Empties(all);
  }

  lemma {:induction false} DocumentRunText(body: Document, s: string, recoveries: nat, marker: bool, o: Option<string>)
    ensures Write(DocumentLoop(body, s, recoveries, marker, o).value) 
            == Write(body) + RunText(s, recoveries, marker, false)
    decreases |s|
  {
    if s != "" {
      if IsMagicComment(Lex(s)) {
        var c := ParseComment(s);
        var first := ItemBlock(CommentItem(c.value));
        MagicAnywhere(s, recoveries, marker);
        ConcatOne(BlockText, first);
        ConcatOne(ItemText, first.item);
        ExclusionRunText([first], c.rest, recoveries, marker);
        ConcatPush(TopText, body, Exclusion(ExclusionLoop([first], c.rest, recoveries, marker).value, o));
      } else {
        var step := BlockStep(s, recoveries, marker);
        BlockRunText(s, recoveries, marker);
        BlockStepProgress(s, recoveries, marker);
        DocumentRunText(body + AsTops(step.value), step.rest, step.recoveries, marker, o);
        AsTopsText(step.value);
        ConcatAppend(TopText, body, AsTops(step.value));
        Associate(Write(body), BlocksText(step.value), RunText(step.rest, step.recoveries, marker, false));
      }
    }
  }

  /** What a parse writes is the text of its run. */
  lemma ParseText(buf: string, marker: bool, o: Option<string>)
    ensures Write(Parse(buf, marker, o)) == RunText(buf, 0, marker, false)
  {
    DocumentRunText([], buf, 0, marker, o);
    PostProcessText(DocumentLoop([], buf, 0, marker, o).value);
    Empties(RunText(buf, 0, marker, false));
  }

  // ------------------------------------------------------------------------------------------- failed constructs

  function Tail(reason: string, marker: bool): string {
    if marker then MarkerLine(reason) else ""
  }

  /** What a recovery writes for the region `x`. */
  lemma RecoveredText(x: string, reason: string, marker: bool)
    requires EndsLine(x) && FailsAt(x)
    ensures ItemsText(RecoveredItems(x, reason, marker)) == Cleaned(x) + Tail(reason, marker)
  {
    CleanedStart(x);
    var u := Cleaned(x);
    assert u[|u| - 1..] == "\n";
    var node := UnparsedItem(u, reason);
    ConcatOne(ItemText, node);
    if marker {
      var comment := CommentItem([CommentText(MarkerText(reason))]);
      assert RecoveredItems(x, reason, marker) == [node] + [comment] + [SpaceItem("\n")];
      ConcatPush(ItemText, [node] + [comment], SpaceItem("\n"));
      ConcatPush(ItemText, [node], comment);
      ConcatOne(CommentPartText, CommentText(MarkerText(reason)));
      Associate(u, MarkerText(reason), "\n");
    }
  }

  /** A failed construct and what its recovery skips. */
  lemma RegionOf(s: string, recoveries: nat, marker: bool, inSection: bool)
    requires EndsLine(s) && Lex(s).kind != Section && Failure(s, inSection).Some?
    ensures var step := ItemStep(s, recoveries, marker, inSection);
            var x := s[..ResyncLength(s, recoveries + 1 > MAX_RECOVERIES)];
            && s == x + step.rest && EndsLine(x) && FailsAt(x) && NextLine(s) <= |x|
            && ItemsText(step.value) == Cleaned(x) + Tail(Failure(s, inSection).value, marker)
            && (step.rest == "" || EndsLine(step.rest)) && step.recoveries == recoveries + 1
  {
    FailureShape(s, inSection);
    var n := ResyncLength(s, recoveries + 1 > MAX_RECOVERIES);
    ResyncSplit(s, recoveries + 1 > MAX_RECOVERIES);
    RegionShape(s, n);
    RecoveredText(s[..n], Failure(s, inSection).value, marker);
  }

  lemma RegionShape(s: string, n: nat)
    requires EndsLine(s) && FailsAt(s) && EndsAtLine(s, n)
    ensures s == s[..n] + s[n..] && EndsLine(s[..n]) && FailsAt(s[..n]) && (s[n..] == "" || EndsLine(s[n..]))
    ensures NextLine(s) <= n
  {
    LineLengthIs(s);
    LineEndStops(s);
  }

  /** A region that is its own remainder, with or without a marker, is recovered to the same nodes. */
  lemma RecoverRegion(x: string, u: string, line: string, r: string, reason: string, recoveries: nat, marker: bool)
    requires EndsLine(u) && FailsAt(u) && Cleaned(u) == u && Unobtrusive(line, u) && (x == u || x == u + line)
    requires ResyncLength(x + r, recoveries + 1 > MAX_RECOVERIES) == |x|
    ensures Recover(x + r, reason, recoveries, marker) ==
            Progress(RecoveredItems(u, reason, marker), r, recoveries + 1)
  {
    Whole(u, line);
    CleanedMarker(u, line);
    CleanedStart(u);
    CleanedStart(x);
    SplitAt(x, r);
  }

  lemma SplitAt(x: string, r: string)
    ensures (x + r)[..|x|] == x && (x + r)[|x|..] == r
  {
  }

  /** The region ends at the same place, with or without a marker. */
  lemma RegionsEnd(u: string, line: string, r: string, y: string, toEof: bool)
    requires EndsLine(u) && Unobtrusive(line, u) && ShowsSame(r, y)
    ensures ResyncLength(u + r, toEof) == |u| <==> ResyncLength(u + line + y, toEof) == |u + line|
    ensures ResyncLength(u + r, toEof) == |u| ==> Resumes(r)
  {
    Whole(u, line);
    RegionIs(u, r, toEof);
    RegionIs(u + line, y, toEof);
    SolidMarker(u, line);
  }

  /** The token a construct fails at lies within what is left of its region, and so its marker shows nothing new. */
  lemma MarkerOf(s: string, u: string, rest: string, inSection: bool)
    requires EndsLine(s) && Lex(s).kind != Section && Failure(s, inSection).Some?
    requires s == u + rest && EndsLine(u)
    ensures Unobtrusive(MarkerLine(Failure(s, inSection).value), u)
  {
    FailureShape(s, inSection);
    FailingText(s);
    PrefixShort(Lex(s).text, u, rest);
    MarkerUnobtrusive(Failure(s, inSection).value, Lex(s), u);
  }

  lemma SwapAlike(a: string, c: Cut)
    requires Sound(c)
    ensures Alike(Old(a, c), New(a, c))
  {
    assert IsSwap(Old(a, c), New(a, c), a, c);
  }

  lemma CutAlike(c: Cut)
    requires Sound(c)
    ensures Alike(c.u + c.q, c.u + c.q2)
  {
    CutStart(c);
    SwapAlike("", c);
  }

  lemma CutStart(c: Cut)
    ensures Old("", c) == c.u + c.q && New("", c) == c.u + c.q2
  {
  }

  function Behind(line: string, marker: bool, rest: string): string {
    if marker then line + rest else rest
  }

  /** `u` is a region without its markers; `rest` and `y` follow with a marker before one of them. */
  lemma FailsBehind(u: string, rest: string, y: string, line: string, marker: bool, inSection: bool)
    requires EndsLine(u) && FailsAt(u) && Unobtrusive(line, u) && ShowsSame(rest, y) && Resumes(rest)
    requires var s := u + Behind(line, marker, rest);
             EndsLine(s) && Lex(s).kind != Section && Failure(s, inSection).Some?
    ensures var s, other := u + Behind(line, marker, rest), u + Behind(line, !marker, y);
            Alike(s, other) && Lex(other) == Lex(s) && Failure(other, inSection) == Failure(s, inSection)
  {
    MarkerHides(u, line, rest, y);
    BehindMarker(line, rest);
    BehindMarker(line, y);
    var c := Cut(u, Behind(line, marker, rest), Behind(line, !marker, y));
    CutAlike(c);
    FailureSwap(c, inSection);
  }

  /** Where recovery stops, and what it gives, on both texts. */
  lemma RecoversBehind(u: string, rest: string, y: string, reason: string, recoveries: nat, marker: bool, b: bool)
    requires EndsLine(u) && FailsAt(u) && Cleaned(u) == u && Unobtrusive(MarkerLine(reason), u) && ShowsSame(rest, y)
    requires var x := u + Tail(reason, marker); ResyncLength(x + rest, recoveries + 1 > MAX_RECOVERIES) == |x|
    ensures Recover(u + Tail(reason, marker) + rest, reason, recoveries, b)
            == Progress(RecoveredItems(u, reason, b), rest, recoveries + 1)
    ensures Recover(u + Tail(reason, !marker) + y, reason, recoveries, b)
            == Progress(RecoveredItems(u, reason, b), y, recoveries + 1)
    ensures Resumes(rest)
  {
    var line := MarkerLine(reason);
    assert u + "" == u;
    if marker {
      RegionsEnd(u, line, y, rest, recoveries + 1 > MAX_RECOVERIES);
    } else {
      RegionsEnd(u, line, rest, y, recoveries + 1 > MAX_RECOVERIES);
    }
    RecoverRegion(u + Tail(reason, marker), u, line, rest, reason, recoveries, b);
    RecoverRegion(u + Tail(reason, !marker), u, line, y, reason, recoveries, b);
  }

  // ------------------------------------------------------------------------------------------- reading again

  /** A round that writes, with this `marker` flag, just what it read. */
  ghost predicate KeepsStep(s: string, recoveries: nat, marker: bool, inSection: bool)
    requires s != ""
  {
    var step := ItemStep(s, recoveries, marker, inSection);
    ItemsText(step.value) + step.rest == s
  }

  /** On `z` the round reads what it reads on `s`, and `y` is left. */
  ghost predicate SameStep(s: string, z: string, y: string, recoveries: nat, inSection: bool) {
    && s != "" && z != "" && Lex(z) == Lex(s)
    && forall b: bool {:trigger ItemStep(z, recoveries, b, inSection)} ::
         var step := ItemStep(s, recoveries, b, inSection);
         ItemStep(z, recoveries, b, inSection) == Progress(step.value, y, step.recoveries)
  }

  /** The text of a round with the other flag, and `y` behind it. */
  function OtherText(s: string, recoveries: nat, marker: bool, inSection: bool, y: string): string
    requires s != ""
  {
    ItemsText(ItemStep(s, recoveries, !marker, inSection).value) + y
  }

  lemma SameFailure(s: string, z: string, rest: string, y: string, reason: string, recoveries: nat, inSection: bool)
    requires s != "" && z != "" && Lex(z) == Lex(s)
    requires Failure(s, inSection) == Some(reason) == Failure(z, inSection)
    requires forall b: bool ::
               Recover(z, reason, recoveries, b) == Progress(Recover(s, reason, recoveries, b).value, y, recoveries + 1)
    ensures SameStep(s, z, y, recoveries, inSection)
  {
  }

  lemma SameConstruct(s: string, z: string, y: string, recoveries: nat, inSection: bool)
    requires s != "" && z != "" && Lex(z) == Lex(s)
    requires Failure(s, inSection).None? && Failure(z, inSection).None?
    requires Construct(z, inSection) == Parsed(Construct(s, inSection).value, y)
    ensures SameStep(s, z, y, recoveries, inSection)
  {
  }

  lemma BehindIs(u: string, reason: string, marker: bool, r: string)
    ensures u + Tail(reason, marker) + r == u + Behind(MarkerLine(reason), marker, r)
  {
    if marker {
      Associate(u, MarkerLine(reason), r);
    } else {
      Empties(u);
    }
  }

  lemma FailAgain(s: string, recoveries: nat, marker: bool, inSection: bool, y: string)
    requires EndsLine(s) && Lex(s).kind != Section && Failure(s, inSection).Some?
    requires KeepsStep(s, recoveries, marker, inSection)
    requires Alike(ItemStep(s, recoveries, marker, inSection).rest, y)
    ensures var z := OtherText(s, recoveries, marker, inSection, y);
            Alike(s, z) && SameStep(s, z, y, recoveries, inSection)
  {
    var rest := ItemStep(s, recoveries, marker, inSection).rest;
    var reason := Failure(s, inSection).value;
    var x := s[..ResyncLength(s, recoveries + 1 > MAX_RECOVERIES)];
    var u := Cleaned(x);
    RegionOf(s, recoveries, marker, inSection);
    RegionOf(s, recoveries, !marker, inSection);
    CleanedStart(x);
    SameTail(u + Tail(reason, marker), x, rest);
    BehindIs(u, reason, marker, rest);
    BehindIs(u, reason, !marker, y);
    AlikeShowsSame(rest, y);
    MarkerOf(s, u, Behind(MarkerLine(reason), marker, rest), inSection);
    RegionClean(u, x, MarkerLine(reason), marker);
    FailAgainAt(u, rest, y, reason, recoveries, marker, inSection);
  }

  lemma FailAgainAt(u: string, rest: string, y: string, reason: string, recoveries: nat, marker: bool, inSection: bool)
    requires EndsLine(u) && FailsAt(u) && Cleaned(u) == u && Unobtrusive(MarkerLine(reason), u) && ShowsSame(rest, y)
    requires var x := u + Tail(reason, marker); ResyncLength(x + rest, recoveries + 1 > MAX_RECOVERIES) == |x|
    requires var s := u + Tail(reason, marker) + rest;
             EndsLine(s) && Lex(s).kind != Section && Failure(s, inSection) == Some(reason)
    ensures var s, z := u + Tail(reason, marker) + rest, u + Tail(reason, !marker) + y;
            Alike(s, z) && SameStep(s, z, y, recoveries, inSection)
  {
    var s, z := u + Tail(reason, marker) + rest, u + Tail(reason, !marker) + y;
    BehindIs(u, reason, marker, rest);
    BehindIs(u, reason, !marker, y);
    RecoversBehind(u, rest, y, reason, recoveries, marker, true);
    RecoversBehind(u, rest, y, reason, recoveries, marker, false);
    FailsBehind(u, rest, y, MarkerLine(reason), marker, inSection);
    SameFailure(s, z, rest, y, reason, recoveries, inSection);
  }

  lemma SameTail(a: string, b: string, r: string)
    requires a + r == b + r
    ensures a == b
  {
    assert |a| == |b|;
    assert (a + r)[..|a|] == a && (b + r)[..|b|] == b;
  }

  lemma RegionClean(u: string, x: string, line: string, marker: bool)
    requires EndsLine(u) && Unobtrusive(line, u) && u == Cleaned(x) && x == u + (if marker then line else "")
    ensures Cleaned(u) == u
  {
    assert u + "" == u;
    CleanedMarker(u, line);
  }

  lemma ReadAgain(s: string, recoveries: nat, inSection: bool, y: string)
    requires s != "" && Lex(s).kind != Section && Failure(s, inSection).None?
    requires Alike(Construct(s, inSection).rest, y)
    ensures var z := ItemText(Construct(s, inSection).value) + y;
            Alike(s, z) && SameStep(s, z, y, recoveries, inSection)
  {
    var r := Construct(s, inSection);
    ConstructText(s, inSection);
    if r.rest != y {
      var a: string, c: Cut :| IsSwap(r.rest, y, a, c);
      ReadBefore(ItemText(r.value), a, c, inSection);
      SameConstruct(s, ItemText(r.value) + y, y, recoveries, inSection);
    } else {
      SameConstruct(s, s, y, recoveries, inSection);
    }
  }

  lemma ReadBefore(text: string, a: string, c: Cut, inSection: bool)
    requires Sound(c)
    requires var s := text + Old(a, c); Failure(s, inSection).None? && Construct(s, inSection).rest == Old(a, c)
    ensures var s, z := text + Old(a, c), text + New(a, c);
            Alike(s, z) && Lex(z) == Lex(s) && Failure(z, inSection).None?
            && Construct(z, inSection) == Parsed(Construct(s, inSection).value, New(a, c))
  {
    OldAhead(text, a, c);
    SwapAlike(text + a, c);
    ConstructSwapAt(text, a, c, inSection);
  }

  lemma OldAhead(text: string, a: string, c: Cut)
    ensures Old(text + a, c) == text + Old(a, c) && New(text + a, c) == text + New(a, c)
  {
  }

  lemma ConstructSwapAt(text: string, a: string, c: Cut, inSection: bool)
    requires Sound(c) && Failure(Old(text + a, c), inSection).None?
    requires Construct(Old(text + a, c), inSection).rest == Old(a, c)
    ensures var s, z := Old(text + a, c), New(text + a, c);
            Lex(z) == Lex(s) && Failure(z, inSection).None?
            && Construct(z, inSection) == Parsed(Construct(s, inSection).value, New(a, c))
  {
    ConstructSwap(text + a, c, inSection);
    SplitAt(text, a);
  }
}
