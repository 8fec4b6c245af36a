/** What a parse writes, with markers or without, parses to the same document, exactly when dropping old markers
    changes nothing for the parser. */
module ConfigStability {
  import opened Text
  import opened ConfigTokens
  import opened ConfigTree
  import opened ConfigGrammar
  import opened ConfigLossless
  import opened ConfigLocality
  import opened ConfigReread
  import opened ConfigRegions
  import opened ConfigFailures
  import opened ConfigMarkers
  import opened ConfigDropped

  predicate WholeLines(s: string) {
    s == "" || EndsLine(s)
  }

  /** A round that writes what it read, or that can only lose old markers nobody would miss. */
  ghost predicate SteadyRound(s: string, recoveries: nat, marker: bool, inSection: bool)
    requires s != ""
  {
    KeepsStep(s, recoveries, marker, inSection) || (marker && TailHarmless(s))
  }

  /** A run of such rounds. */
  ghost predicate Steady(s: string, recoveries: nat, marker: bool, inSection: bool)
    decreases |s|
  {
    s != "" ==>
      if Lex(s).kind == Section then Steady(After(s, Lex(s)), recoveries, marker, true)
      else
        ItemStepProgress(s, recoveries, marker, inSection);
        var step := ItemStep(s, recoveries, marker, inSection);
        SteadyRound(s, recoveries, marker, inSection)
        && Steady(step.rest, step.recoveries, marker, StaysInside(s, inSection))
  }

  lemma StepAgain(s: string, recoveries: nat, marker: bool, inSection: bool, y: string)
    requires EndsLine(s) && Lex(s).kind != Section && SteadyRound(s, recoveries, marker, inSection)
    requires Alike(ItemStep(s, recoveries, marker, inSection).rest, y)
    ensures var z := OtherText(s, recoveries, marker, inSection, y);
            Alike(s, z) && SameStep(s, z, y, recoveries, inSection)
  {
    if Failure(s, inSection).None? {
      ReadAgain(s, recoveries, inSection, y);
      ConcatOne(ItemText, Construct(s, inSection).value);
    } else if KeepsStep(s, recoveries, marker, inSection) {
      FailAgain(s, recoveries, marker, inSection, y);
    } else {
      FailDropped(s, recoveries, inSection, y);
    }
  }

  lemma RunTextIs(s: string, recoveries: nat, marker: bool, inSection: bool)
    requires s != ""
    ensures RunText(s, recoveries, marker, inSection) ==
            if Lex(s).kind == Section then Lex(s).text + RunText(After(s, Lex(s)), recoveries, marker, true)
            else
              var step := ItemStep(s, recoveries, marker, inSection);
              ItemsText(step.value) + RunText(step.rest, step.recoveries, marker, StaysInside(s, inSection))
  {
  }

  /** A steady run is followed, on the text with the other flag, by the same tokens at the same places. */
  lemma {:induction false} RunAgain(s: string, recoveries: nat, marker: bool, inSection: bool)
    requires WholeLines(s) && Steady(s, recoveries, marker, inSection)
    ensures var z := RunText(s, recoveries, !marker, inSection);
            Alike(s, z) && (s == "" <==> z == "") && (s != "" ==> Lex(z) == Lex(s))
    decreases |s|
  {
    if s != "" {
      if Lex(s).kind == Section {
        RunAgain(After(s, Lex(s)), recoveries, marker, true);
        HeaderRun(s, recoveries, !marker, inSection);
      } else {
        var step := ItemStep(s, recoveries, marker, inSection);
        ItemStepProgress(s, recoveries, marker, inSection);
        SteadyStep(s, recoveries, marker, inSection);
        OtherRun(s, recoveries, marker, inSection);
        RunAgain(step.rest, step.recoveries, marker, StaysInside(s, inSection));
        StepAlike(s, recoveries, marker, inSection,
                  RunText(step.rest, step.recoveries, !marker, StaysInside(s, inSection)));
      }
    }
  }

  lemma SteadyStep(s: string, recoveries: nat, marker: bool, inSection: bool)
    requires EndsLine(s) && Lex(s).kind != Section && Steady(s, recoveries, marker, inSection)
    ensures var step := ItemStep(s, recoveries, marker, inSection);
            && SteadyRound(s, recoveries, marker, inSection) && WholeLines(step.rest)
            && Steady(step.rest, step.recoveries, marker, StaysInside(s, inSection))
  {
    StepRest(s, recoveries, marker, inSection);
  }

  lemma OtherRun(s: string, recoveries: nat, marker: bool, inSection: bool)
    requires EndsLine(s) && Lex(s).kind != Section
    ensures var step := ItemStep(s, recoveries, marker, inSection);
            RunText(s, recoveries, !marker, inSection)
            == OtherText(s, recoveries, marker, inSection,
                         RunText(step.rest, step.recoveries, !marker, StaysInside(s, inSection)))
  {
    StepRest(s, recoveries, marker, inSection);
    RunTextIs(s, recoveries, !marker, inSection);
  }

  lemma StepAlike(s: string, recoveries: nat, marker: bool, inSection: bool, y: string)
    requires EndsLine(s) && Lex(s).kind != Section && SteadyRound(s, recoveries, marker, inSection)
    requires Alike(ItemStep(s, recoveries, marker, inSection).rest, y)
    ensures var z := OtherText(s, recoveries, marker, inSection, y);
            Alike(s, z) && z != "" && Lex(z) == Lex(s)
  {
    StepAgain(s, recoveries, marker, inSection, y);
    assert SameStep(s, OtherText(s, recoveries, marker, inSection, y), y, recoveries, inSection);
  }

  lemma HeaderRun(s: string, recoveries: nat, marker: bool, inSection: bool)
    requires s != "" && Lex(s).kind == Section
    requires Alike(After(s, Lex(s)), RunText(After(s, Lex(s)), recoveries, marker, true))
    ensures var z := RunText(s, recoveries, marker, inSection); Alike(s, z) && z != "" && Lex(z) == Lex(s)
  {
    RunTextIs(s, recoveries, marker, inSection);
    Rejoin(Lex(s).text, s);
    HeaderAgain(Lex(s).text, After(s, Lex(s)), RunText(After(s, Lex(s)), recoveries, marker, true));
  }

  lemma HeaderAgain(t: string, rest: string, y: string)
    requires Alike(rest, y) && t != "" && Lex(t + rest).kind == Section && Lex(t + rest).text == t
    ensures Alike(t + rest, t + y) && Lex(t + y) == Lex(t + rest)
  {
    if rest != y {
      var a: string, c: Cut :| IsSwap(rest, y, a, c);
      OldAhead(t, a, c);
      SwapAlike(t + a, c);
      LexSwap(t + a, c);
    }
  }

  /** Whole lines are left after a round that leaves anything. */
  lemma StepRest(s: string, recoveries: nat, marker: bool, inSection: bool)
    requires EndsLine(s) && Lex(s).kind != Section
    ensures WholeLines(ItemStep(s, recoveries, marker, inSection).rest)
    ensures ItemStep(s, recoveries, marker, inSection).rest == ItemStep(s, recoveries, !marker, inSection).rest
    ensures ItemStep(s, recoveries, marker, inSection).recoveries
            == ItemStep(s, recoveries, !marker, inSection).recoveries
  {
    if Failure(s, inSection).Some? {
      RegionOf(s, recoveries, marker, inSection);
    } else {
      ConstructText(s, inSection);
      RestEndsLine(ItemText(Construct(s, inSection).value), Construct(s, inSection).rest, s);
    }
  }

  lemma RestEndsLine(text: string, rest: string, s: string)
    requires text + rest == s && EndsLine(s)
    ensures WholeLines(rest)
  {
    if rest != "" {
      assert rest[|rest| - 1] == s[|s| - 1];
    }
  }

  // ------------------------------------------------------------------------------------------ the same document

  /** One round on the other text. */
  lemma RoundAgain(s: string, recoveries: nat, marker: bool, inSection: bool, b: bool)
    requires EndsLine(s) && Lex(s).kind != Section && Steady(s, recoveries, marker, inSection)
    ensures var step := ItemStep(s, recoveries, b, inSection);
            var z := RunText(s, recoveries, !marker, inSection);
            var y := RunText(step.rest, step.recoveries, !marker, StaysInside(s, inSection));
            && z != "" && Lex(z) == Lex(s)
            && ItemStep(z, recoveries, b, inSection) == Progress(step.value, y, step.recoveries)
            && WholeLines(step.rest) && Steady(step.rest, step.recoveries, marker, StaysInside(s, inSection))
  {
    var step := ItemStep(s, recoveries, marker, inSection);
    ItemStepProgress(s, recoveries, marker, inSection);
    StepRest(s, recoveries, marker, inSection);
    RunAgain(step.rest, step.recoveries, marker, StaysInside(s, inSection));
    StepAgain(s, recoveries, marker, inSection,
              RunText(step.rest, step.recoveries, !marker, StaysInside(s, inSection)));
  }

  /** At the end of a section it does not matter which loop goes on. */
  lemma EndAnywhere(s: string, recoveries: nat, marker: bool)
    requires SectionEnds(s)
    ensures RunText(s, recoveries, marker, true) == RunText(s, recoveries, marker, false)
    ensures Steady(s, recoveries, marker, true) == Steady(s, recoveries, marker, false)
  {
    if s != "" && Lex(s).kind != Section {
      MagicAnywhere(s, recoveries, marker);
    }
  }

  lemma {:induction false} SectionAgain(body: seq<Item>, s: string, recoveries: nat, marker: bool, b: bool)
    requires WholeLines(s) && Steady(s, recoveries, marker, true)
    ensures var r := SectionLoop(body, s, recoveries, b);
            && SectionLoop(body, RunText(s, recoveries, !marker, true), recoveries, b)
               == Progress(r.value, RunText(r.rest, r.recoveries, !marker, false), r.recoveries)
            && WholeLines(r.rest) && Steady(r.rest, r.recoveries, marker, false)
    decreases |s|
  {
    RunAgain(s, recoveries, marker, true);
    if SectionEnds(s) {
      EndAnywhere(s, recoveries, marker);
      EndAnywhere(s, recoveries, !marker);
    } else {
      var step := SectionStep(s, recoveries, b);
      var z := RunText(s, recoveries, !marker, true);
      RoundAgain(s, recoveries, marker, true, b);
      SectionStepIs(s, recoveries, b);
      SectionStepIs(z, recoveries, b);
      SectionStepProgress(s, recoveries, b);
      SectionAgain(body + step.value, step.rest, step.recoveries, marker, b);
    }
  }

  lemma BlockAgain(s: string, recoveries: nat, marker: bool, b: bool)
    requires EndsLine(s) && Steady(s, recoveries, marker, false)
    ensures var r := BlockStep(s, recoveries, b);
            var z := RunText(s, recoveries, !marker, false);
            && z != "" && Lex(z) == Lex(s)
            && BlockStep(z, recoveries, b)
               == Progress(r.value, RunText(r.rest, r.recoveries, !marker, false), r.recoveries)
            && WholeLines(r.rest) && Steady(r.rest, r.recoveries, marker, false)
  {
    var z := RunText(s, recoveries, !marker, false);
    RunAgain(s, recoveries, marker, false);
    if Lex(s).kind == Section {
      Rejoin(Lex(s).text, s);
      RestEndsLine(Lex(s).text, After(s, Lex(s)), s);
      SectionAgain([], After(s, Lex(s)), recoveries, marker, b);
      SplitAt(Lex(s).text, RunText(After(s, Lex(s)), recoveries, !marker, true));
    } else {
      RoundAgain(s, recoveries, marker, false, b);
      BlockStepIs(s, recoveries, b);
      BlockStepIs(z, recoveries, b);
    }
  }

  lemma {:induction false} ExclusionAgain(body: seq<Block>, s: string, recoveries: nat, marker: bool, b: bool)
    requires WholeLines(s) && Steady(s, recoveries, marker, false)
    ensures ExclusionLoop(body, RunText(s, recoveries, !marker, false), recoveries, b).value
            == ExclusionLoop(body, s, recoveries, b).value
    decreases |s|
  {
    if s != "" {
      var step := BlockStep(s, recoveries, b);
      BlockAgain(s, recoveries, marker, b);
      BlockStepProgress(s, recoveries, b);
      ExclusionAgain(body + step.value, step.rest, step.recoveries, marker, b);
    }
  }

  lemma {:induction false} DocumentAgain(body: Document, s: string, recoveries: nat, marker: bool, b: bool,
                                         o: Option<string>)
    requires WholeLines(s) && Steady(s, recoveries, marker, false)
    ensures DocumentLoop(body, RunText(s, recoveries, !marker, false), recoveries, b, o).value
            == DocumentLoop(body, s, recoveries, b, o).value
    decreases |s|
  {
    if s != "" {
      var z := RunText(s, recoveries, !marker, false);
      RunAgain(s, recoveries, marker, false);
      if IsMagicComment(Lex(s)) {
        var c := ParseComment(s);
        MagicAnywhere(s, recoveries, b);
        MagicAnywhere(z, recoveries, b);
        RoundAgain(s, recoveries, marker, false, b);
        CommentProgress(s);
        ExclusionAgain([ItemBlock(CommentItem(c.value))], c.rest, recoveries, marker, b);
      } else {
        var step := BlockStep(s, recoveries, b);
        BlockAgain(s, recoveries, marker, b);
        BlockStepProgress(s, recoveries, b);
        DocumentAgain(body + AsTops(step.value), step.rest, step.recoveries, marker, b, o);
      }
    }
  }

  // ---------------------------------------------------------------------------- texts that are written unchanged

  /** The first line of a text whose start is `t`. */
  lemma LineAcross(t: string, rest: string, y: string)
    requires rest[..NextLine(rest)] <= y
    ensures (t + rest)[..NextLine(t + rest)] <= t + y
  {
    LineLengthIs(t);
    if LineLength(t) < |t| {
      LineLengthOnly(t + rest, LineLength(t));
      assert (t + rest)[..LineLength(t) + 1] == t[..LineLength(t) + 1];
    } else {
      LineLengthIs(rest);
      LineLengthOnly(t + rest, |t| + LineLength(rest));
      assert (t + rest)[..|t| + NextLine(rest)] == t + rest[..NextLine(rest)];
    }
  }

  /** Whole lines are written, and the first one as it was read. */
  ghost predicate StartsLike(s: string, w: string) {
    WholeLines(w) && (s == "" <==> w == "") && s[..NextLine(s)] <= w
  }

  lemma StartsAcross(t: string, rest: string, w: string)
    requires t != "" && EndsLine(t + rest) && StartsLike(rest, w)
    ensures StartsLike(t + rest, t + w) && WholeLines(rest)
  {
    LineAcross(t, rest, w);
    RestEndsLine(t, rest, t + rest);
    if rest == "" {
      assert t + rest == t && t + w == t;
    }
  }

  lemma {:induction false} WritesFirstLine(s: string, recoveries: nat, marker: bool, inSection: bool)
    requires WholeLines(s)
    ensures StartsLike(s, RunText(s, recoveries, marker, inSection))
    decreases |s|
  {
    if s != "" {
      if Lex(s).kind == Section {
        Rejoin(Lex(s).text, s);
        RestEndsLine(Lex(s).text, After(s, Lex(s)), s);
        WritesFirstLine(After(s, Lex(s)), recoveries, marker, true);
        StartsAcross(Lex(s).text, After(s, Lex(s)), RunText(After(s, Lex(s)), recoveries, marker, true));
      } else {
        var step := ItemStep(s, recoveries, marker, inSection);
        var w := RunText(step.rest, step.recoveries, marker, StaysInside(s, inSection));
        ItemStepProgress(s, recoveries, marker, inSection);
        StepRest(s, recoveries, marker, inSection);
        WritesFirstLine(step.rest, step.recoveries, marker, StaysInside(s, inSection));
        StepFirstLine(s, recoveries, marker, inSection, w);
      }
    }
  }

  lemma StepFirstLine(s: string, recoveries: nat, marker: bool, inSection: bool, w: string)
    requires EndsLine(s) && Lex(s).kind != Section && StartsLike(ItemStep(s, recoveries, marker, inSection).rest, w)
    ensures StartsLike(s, ItemsText(ItemStep(s, recoveries, marker, inSection).value) + w)
  {
    var step := ItemStep(s, recoveries, marker, inSection);
    if Failure(s, inSection).None? {
      ConstructText(s, inSection);
      ConcatOne(ItemText, step.value[0]);
      ItemStepProgress(s, recoveries, marker, inSection);
      StartsAcross(ItemText(step.value[0]), step.rest, w);
    } else {
      var x := s[..ResyncLength(s, recoveries + 1 > MAX_RECOVERIES)];
      RegionOf(s, recoveries, marker, inSection);
      CleanedStart(x);
      NextLineStops(x, step.rest);
      TakeAppend(x, step.rest, NextLine(x));
      RegionFirstLine(x[..NextLine(x)], Cleaned(x), Failure(s, inSection).value, marker, w);
    }
  }

  lemma RegionFirstLine(first: string, u: string, reason: string, marker: bool, w: string)
    requires EndsLine(u) && first <= u && WholeLines(w)
    ensures EndsLine(u + Tail(reason, marker) + w) && first <= u + Tail(reason, marker) + w
  {
    var line := MarkerLine(reason);
    assert line[|line| - 1] == '\n';
    if marker {
      Whole(u, line);
    } else {
      Empties(u);
    }
    if w == "" {
      Empties(u + Tail(reason, marker));
    } else {
      Whole(u + Tail(reason, marker), w);
    }
  }

  lemma {:induction false} TerminatedBody(x: string)
    requires WholeLines(x)
    ensures Terminated(BodyLines(x)) == x
    decreases |x|
  {
    if x != "" {
      var n := LineLength(x);
      FirstLine(x, "");
      TerminatedBody(x[n + 1..]);
      OneMoreLine(x[..n], BodyLines(x[n + 1..]));
      LineAndRest(x);
    }
  }

  lemma OneMoreLine(l: string, ls: seq<string>)
    ensures Terminated([l] + ls) == l + "\n" + Terminated(ls)
  {
    assert ([l] + ls)[1..] == ls;
  }

  lemma LineAndRest(x: string)
    requires LineLength(x) < |x|
    ensures x == x[..LineLength(x)] + "\n" + x[LineLength(x) + 1..]
  {
    LineLengthIs(x);
  }

  lemma {:induction false} FewerLines(ls: seq<string>)
    ensures |Terminated(DropMarkerLines(ls))| <= |Terminated(ls)|
  {
    if ls != [] {
      FewerLines(ls[1..]);
      if !IsMarkerLine(ls[0]) {
        OneMoreLine(ls[0], DropMarkerLines(ls[1..]));
      } else {
        assert [] + DropMarkerLines(ls[1..]) == DropMarkerLines(ls[1..]);
      }
    }
  }

  lemma CleanedShorter(x: string)
    requires EndsLine(x)
    ensures |Cleaned(x)| <= |x|
  {
    CleanedIs(x);
    TerminatedBody(x);
    FewerLines(BodyLines(x));
  }

  /** A region is not longer than what is written for it, if the text as a whole is written unchanged: otherwise a
      line of the region would come first where the text after it comes first. */
  lemma RegionNotLonger(x: string, rest: string, t: string, w: string, toEof: bool)
    requires EndsLine(x) && EndsLine(t) && NextLine(x) <= |t| && ResyncLength(x + rest, toEof) == |x|
    requires t + w == x + rest && StartsLike(rest, w) && WholeLines(rest)
    ensures |x| <= |t|
  {
    if |t| < |x| {
      var z := x[|t|..];
      RegionIs(x, rest, toEof);
      SameSplit(t, w, x, rest);
      EndsLineDrop(x, |t|);
      NextLineStops(t, z);
      LinesUntilJoin(IsResyncLine, t[NextLine(t)..], z);
      FirstLineOf(t, x);
      ResumesAhead(z, rest);
      SameFirstLine(rest, w);
    }
  }

  lemma SameSplit(t: string, w: string, x: string, rest: string)
    requires t + w == x + rest && |t| <= |x|
    ensures x == t + x[|t|..] && w == x[|t|..] + rest
  {
    assert (x + rest)[..|t|] == x[..|t|] && (t + w)[..|t|] == t;
    assert (x + rest)[|t|..] == x[|t|..] + rest && (t + w)[|t|..] == w;
  }

  lemma FirstLineOf(t: string, x: string)
    requires EndsLine(t) && t <= x
    ensures NextLine(x) == NextLine(t)
  {
    NextLineStops(t, x[|t|..]);
    assert x == t + x[|t|..];
  }

  lemma SameFirstLine(s: string, w: string)
    requires WholeLines(s) && StartsLike(s, w) && s != ""
    ensures Resumes(w) <==> Resumes(s)
  {
    FirstLine(s, "");
    var l := s[..NextLine(s)];
    assert w == l + w[|l|..] && s == l + s[|l|..];
    assert EndsLine(l) by {
      LineLengthIs(s);
    }
    ResumesAhead(l, w[|l|..]);
    ResumesAhead(l, s[|l|..]);
  }

  /** Nor is it shorter: otherwise the text after it would start within a marker. */
  lemma RegionNotShorter(x: string, rest: string, u: string, line: string, w: string, toEof: bool)
    requires EndsLine(x) && |u| <= |x| && EndsLine(line) && LineLength(line) == |line| - 1 && line[0] == '#'
    requires ResyncLength(x + rest, toEof) == |x| && u + line + w == x + rest
    ensures |u + line| <= |x|
  {
    if |x| < |u + line| {
      RegionIs(x, rest, toEof);
      SameSplit(x, rest, u + line, w);
      if |x| > |u| {
        NoBreakWithin(u, line, |x|);
      }
      assert rest[0] == (u + line)[|x|] == line[0];
      ResumedText(rest);
    }
  }

  lemma NoBreakWithin(u: string, line: string, n: nat)
    requires |u| < n < |u + line| && LineLength(line) == |line| - 1
    ensures !EndsLine((u + line)[..n])
  {
    LineLengthIs(line);
    assert (u + line)[n - 1] == line[n - 1 - |u|];
  }

  lemma StepKept(s: string, recoveries: nat, marker: bool, inSection: bool, w: string)
    requires EndsLine(s) && Lex(s).kind != Section
    requires StartsLike(ItemStep(s, recoveries, marker, inSection).rest, w)
    requires ItemsText(ItemStep(s, recoveries, marker, inSection).value) + w == s
    ensures KeepsStep(s, recoveries, marker, inSection) && w == ItemStep(s, recoveries, marker, inSection).rest
  {
    var step := ItemStep(s, recoveries, marker, inSection);
    StepRest(s, recoveries, marker, inSection);
    if Failure(s, inSection).None? {
      ConstructText(s, inSection);
      ConcatOne(ItemText, step.value[0]);
    } else {
      FailureShape(s, inSection);
      RegionKept(s, recoveries, marker, inSection, w);
    }
    SameHead(ItemsText(step.value), step.rest, w);
  }

  lemma SameHead(t: string, r: string, w: string)
    requires t + w == t + r
    ensures w == r
  {
    assert (t + w)[|t|..] == w && (t + r)[|t|..] == r;
  }

  lemma RegionKept(s: string, recoveries: nat, marker: bool, inSection: bool, w: string)
    requires EndsLine(s) && Lex(s).kind != Section && Failure(s, inSection).Some?
    requires StartsLike(ItemStep(s, recoveries, marker, inSection).rest, w)
    requires ItemsText(ItemStep(s, recoveries, marker, inSection).value) + w == s
    ensures KeepsStep(s, recoveries, marker, inSection)
  {
    var rest := ItemStep(s, recoveries, marker, inSection).rest;
    var toEof := recoveries + 1 > MAX_RECOVERIES;
    var x := s[..ResyncLength(s, toEof)];
    RegionOf(s, recoveries, marker, inSection);
    CleanedStart(x);
    CleanedShorter(x);
    NextLineStops(x, rest);
    LineShape(s, inSection);
    WrittenForRegion(x, rest, Cleaned(x), Failure(s, inSection).value, marker, w, toEof);
  }

  lemma LineShape(s: string, inSection: bool)
    requires EndsLine(s) && Lex(s).kind != Section && Failure(s, inSection).Some?
    ensures IsOneComment(MarkerLine(Failure(s, inSection).value))
  {
    FailureShape(s, inSection);
    FailingText(s);
    MarkerUnobtrusive(Failure(s, inSection).value, Lex(s), Lex(s).text);
  }

  predicate IsOneComment(line: string) {
    EndsLine(line) && line[0] == '#' && LineLength(line) == |line| - 1
  }

  lemma WrittenForRegion(x: string, rest: string, u: string, reason: string, marker: bool, w: string, toEof: bool)
    requires EndsLine(x) && EndsLine(u) && |u| <= |x| && x[..NextLine(x)] <= u && IsOneComment(MarkerLine(reason))
    requires ResyncLength(x + rest, toEof) == |x| && u + Tail(reason, marker) + w == x + rest
    requires StartsLike(rest, w) && WholeLines(rest)
    ensures u + Tail(reason, marker) == x
  {
    var t := u + Tail(reason, marker);
    RegionFirstLine(x[..NextLine(x)], u, reason, marker, "");
    Empties(t);
    RegionNotLonger(x, rest, t, w, toEof);
    if marker {
      RegionNotShorter(x, rest, u, MarkerLine(reason), w, toEof);
    } else {
      Empties(u);
    }
    SameParts(t, w, x, rest);
  }

  lemma SameParts(t: string, w: string, x: string, rest: string)
    requires t + w == x + rest && |t| == |x|
    ensures t == x && w == rest
  {
    SameSplit(t, w, x, rest);
    assert x[|t|..] == "" && x == t + "" && w == "" + rest;
  }

  /** A text that is written unchanged is written unchanged round by round. */
  lemma {:induction false} WrittenSteady(s: string, recoveries: nat, marker: bool, inSection: bool)
    requires WholeLines(s) && RunText(s, recoveries, marker, inSection) == s
    ensures Steady(s, recoveries, marker, inSection)
    decreases |s|
  {
    if s != "" {
      RunTextIs(s, recoveries, marker, inSection);
      if Lex(s).kind == Section {
        Rejoin(Lex(s).text, s);
        RestEndsLine(Lex(s).text, After(s, Lex(s)), s);
        SameHead(Lex(s).text, After(s, Lex(s)), RunText(After(s, Lex(s)), recoveries, marker, true));
        WrittenSteady(After(s, Lex(s)), recoveries, marker, true);
      } else {
        var step := ItemStep(s, recoveries, marker, inSection);
        var inside := StaysInside(s, inSection);
        ItemStepProgress(s, recoveries, marker, inSection);
        StepRest(s, recoveries, marker, inSection);
        WritesFirstLine(step.rest, step.recoveries, marker, inside);
        StepKept(s, recoveries, marker, inSection, RunText(step.rest, step.recoveries, marker, inside));
        WrittenSteady(step.rest, step.recoveries, marker, inside);
      }
    }
  }

  // ------------------------------------------------------------------------------------------------- documents

  /** Whole lines stay whole lines. */
  lemma WritesWholeLines(buf: string, marker: bool, o: Option<string>)
    requires WholeLines(buf)
    ensures WholeLines(Write(Parse(buf, marker, o)))
  {
    ParseText(buf, marker, o);
    WritesFirstLine(buf, 0, marker, false);
  }

  /** A text that is written unchanged with markers or without is read the same after it is written the other way. */
  lemma OtherTextParses(buf: string, marker: bool, b: bool, o: Option<string>)
    requires WholeLines(buf) && Write(Parse(buf, marker, o)) == buf
    ensures Parse(Write(Parse(buf, !marker, o)), b, o) == Parse(buf, b, o)
  {
    ParseText(buf, marker, o);
    ParseText(buf, !marker, o);
    WrittenSteady(buf, 0, marker, false);
    DocumentAgain([], buf, 0, marker, b, o);
  }

  /** For every marker-free text of whole lines: the text written with markers parses to the same document, every
      marker to its equal, and so it is written the same again; written without markers it is the first text. */
  lemma MarkersDoNotStack(buf: string, o: Option<string>)
    requires WholeLines(buf) && MarkerFree(buf)
    ensures var marked := Write(Parse(buf, true, o));
            && Parse(marked, true, o) == Parse(buf, true, o)
            && Write(Parse(marked, true, o)) == marked
            && Write(Parse(marked, false, o)) == buf
  {
    Lossless(buf, o);
    OtherTextParses(buf, false, true, o);
    OtherTextParses(buf, false, false, o);
  }

  /** Read to the same documents, with markers and without. */
  ghost predicate ReadsLike(s: string, buf: string, o: Option<string>) {
    Parse(s, true, o) == Parse(buf, true, o) && Parse(s, false, o) == Parse(buf, false, o)
  }

  /** With old markers in the text: what is written with markers is read like the text itself, exactly when the text
      without the markers that recovery drops is. */
  lemma MarkersDoNotStackExactly(buf: string, o: Option<string>)
    requires WholeLines(buf)
    ensures ReadsLike(Write(Parse(buf, true, o)), buf, o) <==> ReadsLike(Write(Parse(buf, false, o)), buf, o)
    ensures ReadsLike(Write(Parse(buf, false, o)), buf, o) ==>
              Write(Parse(Write(Parse(buf, true, o)), true, o)) == Write(Parse(buf, true, o))
  {
    var marked, plain := Write(Parse(buf, true, o)), Write(Parse(buf, false, o));
    WritesWholeLines(buf, true, o);
    WritesWholeLines(buf, false, o);
    if ReadsLike(marked, buf, o) {
      OtherTextParses(marked, true, true, o);
      OtherTextParses(marked, true, false, o);
    }
    if ReadsLike(plain, buf, o) {
      OtherTextParses(plain, false, true, o);
      OtherTextParses(plain, false, false, o);
    }
  }

  // ---------------------------------------------------------------------------------------- harmless old markers

  lemma HarmlessRest(s: string, t: string, rest: string)
    requires TailHarmless(s) && t + rest == s
    ensures TailHarmless(rest)
  {
    SuffixTailHarmless(s, |t|);
    SplitAt(t, rest);
  }

  lemma HarmlessStep(s: string, recoveries: nat, inSection: bool)
    requires EndsLine(s) && Lex(s).kind != Section && TailHarmless(s)
    ensures TailHarmless(ItemStep(s, recoveries, true, inSection).rest)
  {
    var rest := ItemStep(s, recoveries, true, inSection).rest;
    if Failure(s, inSection).None? {
      ConstructText(s, inSection);
      HarmlessRest(s, ItemText(Construct(s, inSection).value), rest);
    } else {
      RegionOf(s, recoveries, true, inSection);
      HarmlessRest(s, s[..ResyncLength(s, recoveries + 1 > MAX_RECOVERIES)], rest);
    }
  }

  lemma {:induction false} HarmlessSteady(s: string, recoveries: nat, inSection: bool)
    requires WholeLines(s) && TailHarmless(s)
    ensures Steady(s, recoveries, true, inSection)
    decreases |s|
  {
    if s != "" {
      if Lex(s).kind == Section {
        Rejoin(Lex(s).text, s);
        RestEndsLine(Lex(s).text, After(s, Lex(s)), s);
        HarmlessRest(s, Lex(s).text, After(s, Lex(s)));
        HarmlessSteady(After(s, Lex(s)), recoveries, true);
      } else {
        var step := ItemStep(s, recoveries, true, inSection);
        ItemStepProgress(s, recoveries, true, inSection);
        StepRest(s, recoveries, true, inSection);
        HarmlessStep(s, recoveries, inSection);
        HarmlessSteady(step.rest, step.recoveries, StaysInside(s, inSection));
      }
    }
  }

  /** For every text of whole lines whose old markers are harmless, read off the text line by line: without the markers
      that recovery drops, and with the new ones in their place, it parses to the same documents, and it is written the
      same again. */
  lemma HarmlessMarkersDoNotStack(buf: string, o: Option<string>)
    requires WholeLines(buf) && MarkersHarmless(buf)
    ensures ReadsLike(Write(Parse(buf, false, o)), buf, o)
    ensures var marked := Write(Parse(buf, true, o));
            ReadsLike(marked, buf, o) && Write(Parse(marked, true, o)) == marked
  {
    ParseText(buf, false, o);
    HarmlessSteady(buf, 0, false);
    DocumentAgain([], buf, 0, true, true, o);
    DocumentAgain([], buf, 0, true, false, o);
    MarkersDoNotStackExactly(buf, o);
  }
}
