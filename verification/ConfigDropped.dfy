/** Old markers that recovery drops: when their loss cannot be noticed by anything before them. */
module ConfigDropped {
  import opened Text
  import opened ConfigTokens
  import opened ConfigTree
  import opened ConfigGrammar
  import opened ConfigLossless
  import opened ConfigLocality
  import opened ConfigReread
  import opened ConfigRegions
  import opened ConfigFailures
  import opened ConfigMarkers

  // -------------------------------------------------------------------------------------- a condition on texts

  /** The first line with anything but markers and whitespace, if there is one, starts with no assignment. */
  predicate NoAssignAfter(t: string)
    decreases |t|
  {
    var n := LineLength(t);
    var line := t[..n];
    if IsMarkerLine(line) || SpaceLength(line) == n then n < |t| ==> NoAssignAfter(t[n + 1..])
    else line[SpaceLength(line)] != ':' && line[SpaceLength(line)] != '='
  }

  /** A marker is a comment without `%` and `}` and has no assignment after it. */
  predicate HarmlessLine(line: string, after: string) {
    IsMarkerLine(line) ==> StartsComment(line) && '%' !in line && '}' !in line && NoAssignAfter(after)
  }

  predicate MarkersHarmless(s: string)
    decreases |s|
  {
    var n := LineLength(s);
    if n == |s| then HarmlessLine(s, "")
    else HarmlessLine(s[..n], s[n + 1..]) && MarkersHarmless(s[n + 1..])
  }

  /** The same for every line but the first, which may be a remainder of a line. */
  predicate TailHarmless(s: string) {
    LineLength(s) < |s| ==> MarkersHarmless(s[LineLength(s) + 1..])
  }

  lemma {:induction false} SuffixTailHarmless(s: string, k: nat)
    requires TailHarmless(s) && k <= |s|
    ensures TailHarmless(s[k..])
    decreases |s|
  {
    var n := LineLength(s);
    if k <= n {
      LineLengthOfSuffix(s, k);
      assert n < |s| ==> s[k..][n - k + 1..] == s[n + 1..];
    } else {
      var r := s[n + 1..];
      SuffixTailHarmless(r, k - n - 1);
      assert r[k - n - 1..] == s[k..];
    }
  }

  // --------------------------------------------------------------------------------------------- dropping lines

  /** Whole lines without the markers among them. */
  function Dropped(r: string): string {
    Terminated(DropMarkerLines(BodyLines(r)))
  }

  /** A line and its line break. */
  predicate IsLine(l: string) {
    EndsLine(l) && LineLength(l) == |l| - 1
  }

  lemma FirstOf(r: string)
    requires EndsLine(r)
    ensures var n := LineLength(r) + 1;
            n <= |r| && IsLine(r[..n]) && r == r[..n] + r[n..] && (r[n..] == "" || EndsLine(r[n..]))
            && r[..n][..n - 1] == r[..n - 1]
  {
    FirstLine(r, "");
    LineLengthIs(r);
    LineLengthOnly(r[..LineLength(r) + 1], LineLength(r));
  }

  lemma LineOf(l: string, q: string)
    requires IsLine(l)
    ensures LineLength(l + q) == |l| - 1 && (l + q)[..|l| - 1] == l[..|l| - 1] && (l + q)[|l|..] == q
  {
    FirstLine(l, q);
    assert l[|l| - 1 + 1..] + q == q;
  }

  lemma DroppedLine(l: string, r: string)
    requires IsLine(l)
    ensures Dropped(l + r) == (if IsMarkerLine(l[..|l| - 1]) then "" else l) + Dropped(r)
  {
    LineOf(l, r);
    var line := l[..|l| - 1];
    assert BodyLines(l + r) == [line] + BodyLines(r);
    DropLinesAppend([line], BodyLines(r));
    OneLine(line);
    if !IsMarkerLine(line) {
      assert ([line] + DropMarkerLines(BodyLines(r)))[1..] == DropMarkerLines(BodyLines(r));
      assert line + "\n" == l;
    } else {
      assert [] + DropMarkerLines(BodyLines(r)) == DropMarkerLines(BodyLines(r));
      Empties(Dropped(r));
    }
  }

  lemma NothingDropped()
    ensures Dropped("") == ""
  {
  }

  lemma {:induction false} DroppedTwice(r: string)
    requires r == "" || EndsLine(r)
    ensures Dropped(Dropped(r)) == Dropped(r)
    decreases |r|
  {
    if r != "" {
      FirstOf(r);
      var l, rest := r[..LineLength(r) + 1], r[LineLength(r) + 1..];
      DroppedLine(l, rest);
      DroppedTwice(rest);
      if IsMarkerLine(l[..|l| - 1]) {
        Empties(Dropped(rest));
      } else {
        DroppedLine(l, Dropped(rest));
      }
    }
  }

  /** No line that is kept starts afresh if none did. */
  lemma {:induction false} DroppedLinesUntil(r: string)
    requires r == "" || EndsLine(r)
    requires LinesUntil(IsResyncLine, r) == |r|
    ensures LinesUntil(IsResyncLine, Dropped(r)) == |Dropped(r)|
    decreases |r|
  {
    if r != "" {
      FirstOf(r);
      var l, rest := r[..LineLength(r) + 1], r[LineLength(r) + 1..];
      LinesUntilJoin(IsResyncLine, l, rest);
      DroppedLine(l, rest);
      DroppedLinesUntil(rest);
      if IsMarkerLine(l[..|l| - 1]) {
        Empties(Dropped(rest));
      } else {
        LinesUntilJoin(IsResyncLine, l, Dropped(rest));
      }
    }
  }

  // ------------------------------------------------------------------------------------- what can be seen of it

  /** What reading up to a line break can find out about the text behind it. */
  ghost predicate FarSame(q: string, q2: string) {
    && ('}' in q <==> '}' in q2) && FirstStop(q) == FirstStop(q2) && (NoPair(q) <==> NoPair(q2))
    && (ContinuationFollows(q) <==> ContinuationFollows(q2))
  }

  lemma PrependFar(l: string, q: string, q2: string)
    requires EndsLine(l) && FarSame(q, q2)
    ensures FarSame(l + q, l + q2)
  {
    InAppend(l, q, '}');
    InAppend(l, q2, '}');
    StopAhead(l, q);
    StopAhead(l, q2);
    NoPairAppend(l, q);
    NoPairAppend(l, q2);
    ContinuationSwap(l, q, q2);
  }

  /** A comment line without `%` and `}` goes unseen. */
  lemma CommentFar(l: string, q: string)
    requires IsLine(l) && StartsComment(l[..|l| - 1]) && '%' !in l && '}' !in l
    ensures FarSame(l + q, q)
  {
    InAppend(l, q, '}');
    NoStop(l);
    StopAhead(l, q);
    NoPairWithout(l);
    NoPairAppend(l, q);
    LineOf(l, q);
  }

  lemma {:induction false} DroppedFar(r: string, rest: string, y: string)
    requires (r == "" || EndsLine(r)) && MarkersHarmless(r + rest) && FarSame(rest, y)
    ensures FarSame(r + rest, Dropped(r) + y)
    decreases |r|
  {
    if r == "" {
      NothingDropped();
      Empties(rest);
      Empties(y);
    } else {
      FirstOf(r);
      var l, r1 := r[..LineLength(r) + 1], r[LineLength(r) + 1..];
      Associate(l, r1, rest);
      HarmlessHead(l, r1 + rest);
      DroppedLine(l, r1);
      DroppedFar(r1, rest, y);
      if IsMarkerLine(l[..|l| - 1]) {
        Empties(Dropped(r1));
        CommentFar(l, r1 + rest);
      } else {
        Associate(l, Dropped(r1), y);
        PrependFar(l, r1 + rest, Dropped(r1) + y);
      }
    }
  }

  lemma HarmlessHead(l: string, q: string)
    requires IsLine(l) && MarkersHarmless(l + q)
    ensures HarmlessLine(l[..|l| - 1], q) && MarkersHarmless(q)
    ensures IsMarkerLine(l[..|l| - 1]) ==> '%' !in l && '}' !in l
  {
    LineOf(l, q);
    assert l == l[..|l| - 1] + "\n";
    InAppend(l[..|l| - 1], "\n", '%');
    InAppend(l[..|l| - 1], "\n", '}');
  }

  // -------------------------------------------------------------------------------------- assignments behind it

  /** The first character that is no whitespace is an assignment. */
  predicate AssignAhead(q: string) {
    var n := SpaceLength(q);
    n < |q| && (q[n] == ':' || q[n] == '=')
  }

  lemma {:induction false} SpaceJoin(x: string, q: string)
    ensures SpaceLength(x + q) == if SpaceLength(x) < |x| then SpaceLength(x) else |x| + SpaceLength(q)
  {
    if x == "" {
      assert x + q == q;
    } else if IsSpace(x[0]) {
      SpaceJoin(x[1..], q);
      assert (x + q)[1..] == x[1..] + q;
    }
  }

  lemma AssignFront(x: string, q: string, n: nat)
    requires n == SpaceLength(x) < |x|
    ensures AssignAhead(x + q) <==> AssignAhead(x)
  {
    SpaceJoin(x, q);
    CharOf(x, q, n);
  }

  lemma AssignBehind(x: string, q: string, n: nat)
    requires SpaceLength(x) == |x| && n == SpaceLength(q)
    ensures AssignAhead(x + q) <==> AssignAhead(q)
  {
    SpaceJoin(x, q);
    if n < |q| {
      CharOf(x, q, |x| + n);
    }
  }

  lemma AssignJoin(x: string, q: string)
    ensures AssignAhead(x + q) <==> if SpaceLength(x) < |x| then AssignAhead(x) else AssignAhead(q)
  {
    if SpaceLength(x) < |x| {
      AssignFront(x, q, SpaceLength(x));
    } else {
      AssignBehind(x, q, SpaceLength(q));
    }
  }

  lemma CharOf(x: string, q: string, i: nat)
    requires i < |x| + |q|
    ensures (x + q)[i] == if i < |x| then x[i] else q[i - |x|]
  {
  }

  /** A line is whitespace with its line break exactly if it is without. */
  lemma SpaceLine(l: string)
    requires IsLine(l)
    ensures SpaceLength(l) == |l| <==> SpaceLength(l[..|l| - 1]) == |l| - 1
    ensures SpaceLength(l) < |l| ==> SpaceLength(l[..|l| - 1]) == SpaceLength(l) < |l| - 1
  {
    LineText(l);
    BreakIsSpace();
    SpaceJoin(l[..|l| - 1], "\n");
  }

  lemma LineText(l: string)
    requires IsLine(l)
    ensures l == l[..|l| - 1] + "\n"
  {
  }

  lemma BreakIsSpace()
    ensures SpaceLength("\n") == 1
  {
    assert "\n"[1..] == "";
  }

  lemma NoAssignHead(l: string, q: string)
    requires IsLine(l) && NoAssignAfter(l + q)
    ensures if IsMarkerLine(l[..|l| - 1]) || SpaceLength(l) == |l| then NoAssignAfter(q) else !AssignAhead(l)
  {
    LineOf(l, q);
    SpaceLine(l);
    var line := l[..|l| - 1];
    if !IsMarkerLine(line) && SpaceLength(l) < |l| {
      assert l[SpaceLength(l)] == line[SpaceLength(line)];
    }
  }

  /** Past whitespace and markers there is no assignment. */
  lemma {:induction false} SkippedAssign(r: string, rest: string, y: string)
    requires (r == "" || EndsLine(r)) && NoAssignAfter(r + rest) && NoAssign(y)
    ensures !AssignAhead(Dropped(r) + y)
    decreases |r|
  {
    if r == "" {
      NothingDropped();
      Empties(y);
    } else {
      FirstOf(r);
      var l, r1 := r[..LineLength(r) + 1], r[LineLength(r) + 1..];
      Associate(l, r1, rest);
      NoAssignHead(l, r1 + rest);
      DroppedLine(l, r1);
      if IsMarkerLine(l[..|l| - 1]) {
        Empties(Dropped(r1));
        SkippedAssign(r1, rest, y);
      } else {
        Associate(l, Dropped(r1), y);
        AssignJoin(l, Dropped(r1) + y);
        if SpaceLength(l) == |l| {
          SkippedAssign(r1, rest, y);
        }
      }
    }
  }

  /** Dropping markers brings no assignment to the front. */
  lemma {:induction false} DroppedAssign(r: string, rest: string, y: string)
    requires (r == "" || EndsLine(r)) && MarkersHarmless(r + rest) && !AssignAhead(r + rest) && NoAssign(y)
    ensures !AssignAhead(Dropped(r) + y)
    decreases |r|
  {
    if r == "" {
      NothingDropped();
      Empties(y);
    } else {
      FirstOf(r);
      var l, r1 := r[..LineLength(r) + 1], r[LineLength(r) + 1..];
      Associate(l, r1, rest);
      HarmlessHead(l, r1 + rest);
      DroppedLine(l, r1);
      if IsMarkerLine(l[..|l| - 1]) {
        Empties(Dropped(r1));
        SkippedAssign(r1, rest, y);
      } else {
        Associate(l, Dropped(r1), y);
        AssignJoin(l, r1 + rest);
        AssignJoin(l, Dropped(r1) + y);
        if SpaceLength(l) == |l| {
          DroppedAssign(r1, rest, y);
        }
      }
    }
  }

  /** Behind the name of an option that has no assignment. */
  lemma NextAssign(w: string, q: string, q2: string)
    requires EndsLine(w) && !AssignsNext(w + q) && (!AssignAhead(q) ==> !AssignAhead(q2))
    ensures !AssignsNext(w + q2)
  {
    StartsCommentLocal(w, q);
    StartsCommentLocal(w, q2);
    AssignJoin(w, q);
    AssignJoin(w, q2);
    if SpaceLength(w) == |w| {
      AllSpaceNoComment(w);
    }
  }

  lemma AllSpaceNoComment(w: string)
    requires EndsLine(w) && SpaceLength(w) == |w|
    ensures !StartsComment(w)
  {
    SpaceBefore(w);
    LineEndStops(w);
    assert w[..|w|] == w;
    assert IsSpace(w[BlankLength(w)]);
  }

  // ----------------------------------------------------------------------------------------- failing once more

  /** A region, cut after its first line. */
  lemma RegionLines(x: string, rest: string)
    requires EndsLine(x) && FailsAt(x)
    ensures var n := NextLine(x);
            && n <= |x| && IsLine(x[..n]) && FailsAt(x[..n]) && (x[n..] == "" || EndsLine(x[n..]))
            && x == x[..n] + x[n..] && x + rest == x[..n] + (x[n..] + rest)
            && LineLength(x + rest) == n - 1 && (x + rest)[n..] == x[n..] + rest
            && Cleaned(x) == x[..n] + Dropped(x[n..])
  {
    var n := NextLine(x);
    LineEndStops(x);
    FirstOf(x);
    Associate(x[..n], x[n..], rest);
    LineOf(x[..n], x[n..] + rest);
    CleanedIs(x);
    DroppedLine(x[..n], x[n..]);
    NotMarker(x[..n - 1]);
  }

  /** What is left of a region ends where the region did, and nothing more is dropped from it. */
  lemma KeptRegion(x: string, rest: string, y: string, toEof: bool)
    requires EndsLine(x) && FailsAt(x) && ResyncLength(x + rest, toEof) == |x| && ShowsSame(rest, y)
    ensures Resumes(rest) && ResyncLength(Cleaned(x) + y, toEof) == |Cleaned(x)|
    ensures Cleaned(Cleaned(x)) == Cleaned(x)
  {
    var n := NextLine(x);
    RegionLines(x, rest);
    CleanedStart(x);
    RegionIs(x, rest, toEof);
    RegionIs(Cleaned(x), y, toEof);
    LineOf(x[..n], Dropped(x[n..]));
    if !toEof {
      DroppedLinesUntil(x[n..]);
    }
    CleanedIs(Cleaned(x));
    CleanedIs(x);
    DroppedTwice(x);
  }

  lemma DroppedSound(l: string, r: string, rest: string, y: string)
    requires IsLine(l) && FailsAt(l) && (r == "" || EndsLine(r)) && MarkersHarmless(r + rest)
    requires ShowsSame(rest, y) && Resumes(rest)
    ensures Sound(Cut(l, r + rest, Dropped(r) + y))
  {
    ResumedText(rest);
    ResumedText(y);
    DroppedFar(r, rest, y);
  }

  lemma FailsTheSame(s: string, z: string, inSection: bool)
    requires EndsLine(s) && Lex(s).kind != Section && Failure(s, inSection).Some?
    requires z != "" && Lex(z) == Lex(s)
    requires inSection && Lex(s).kind == Word ==> After(z, Lex(s)) != "" && !AssignsNext(After(z, Lex(s)))
    ensures Failure(z, inSection) == Failure(s, inSection)
  {
    FailureShape(s, inSection);
    if inSection && Lex(s).kind == Word {
      PrefixShort(Lex(s).text, s, "");
      assert s + "" == s;
      WordFails(s);
      WordFails(z);
    } else {
      TokenFails(s, inSection);
      TokenFails(z, inSection);
    }
  }

  /** What follows the name of an option that fails, once markers behind its line are gone. */
  lemma NameKept(l: string, r: string, rest: string, y: string, name: string)
    requires IsLine(l) && (r == "" || EndsLine(r)) && MarkersHarmless(r + rest) && NoAssign(y)
    requires name <= l + (r + rest) && name <= l + (Dropped(r) + y) && '\n' !in name
    requires !AssignsNext((l + (r + rest))[|name|..])
    ensures (l + (Dropped(r) + y))[|name|..] != "" && !AssignsNext((l + (Dropped(r) + y))[|name|..])
  {
    PrefixShort(name, l, r + rest);
    DropAppend(l, r + rest, |name|);
    DropAppend(l, Dropped(r) + y, |name|);
    if !AssignAhead(r + rest) {
      DroppedAssign(r, rest, y);
    }
    NextAssign(l[|name|..], r + rest, Dropped(r) + y);
  }

  lemma SameFront(c: Cut)
    requires Sound(c) && !LooksAhead(Lex(c.u + c.q).kind)
    ensures Lex(c.u + c.q2) == Lex(c.u + c.q)
  {
    CutStart(c);
    LexSwap("", c);
  }

  /** A failed construct whose region loses harmless markers fails as before, at the same place. */
  lemma FailsWithout(l: string, r: string, rest: string, y: string, inSection: bool)
    requires IsLine(l) && FailsAt(l) && (r == "" || EndsLine(r)) && MarkersHarmless(r + rest)
    requires ShowsSame(rest, y) && Resumes(rest)
    requires var s := l + (r + rest); EndsLine(s) && Lex(s).kind != Section && Failure(s, inSection).Some?
    ensures var s, z := l + (r + rest), l + (Dropped(r) + y);
            Alike(s, z) && Lex(z) == Lex(s) && Failure(z, inSection) == Failure(s, inSection)
  {
    var c := Cut(l, r + rest, Dropped(r) + y);
    DroppedSound(l, r, rest, y);
    CutAlike(c);
    FailureShape(l + c.q, inSection);
    SameFront(c);
    ResumedText(y);
    StillFails(l, r, rest, y, Lex(l + c.q), inSection);
  }

  lemma StillFails(l: string, r: string, rest: string, y: string, t: Token, inSection: bool)
    requires IsLine(l) && (r == "" || EndsLine(r)) && MarkersHarmless(r + rest) && NoAssign(y)
    requires var s := l + (r + rest); EndsLine(s) && Lex(s).kind != Section && Failure(s, inSection).Some?
    requires Lex(l + (r + rest)) == t == Lex(l + (Dropped(r) + y))
    ensures Failure(l + (Dropped(r) + y), inSection) == Failure(l + (r + rest), inSection)
  {
    FailureShape(l + (r + rest), inSection);
    if inSection && t.kind == Word {
      NameKept(l, r, rest, y, t.text);
    }
    FailsTheSame(l + (r + rest), l + (Dropped(r) + y), inSection);
  }

  lemma RecoversWithout(x: string, rest: string, y: string, reason: string, recoveries: nat, b: bool)
    requires EndsLine(x) && FailsAt(x) && ShowsSame(rest, y)
    requires ResyncLength(x + rest, recoveries + 1 > MAX_RECOVERIES) == |x|
    ensures Recover(Cleaned(x) + y, reason, recoveries, b)
            == Progress(Recover(x + rest, reason, recoveries, b).value, y, recoveries + 1)
  {
    KeptRegion(x, rest, y, recoveries + 1 > MAX_RECOVERIES);
    CleanedStart(x);
    CleanedStart(Cleaned(x));
    SplitAt(x, rest);
    SplitAt(Cleaned(x), y);
    assert RecoveredItems(Cleaned(x), reason, b) == RecoveredItems(x, reason, b);
  }

  lemma FailDropped(s: string, recoveries: nat, inSection: bool, y: string)
    requires EndsLine(s) && Lex(s).kind != Section && Failure(s, inSection).Some? && TailHarmless(s)
    requires Alike(ItemStep(s, recoveries, true, inSection).rest, y)
    ensures var z := OtherText(s, recoveries, true, inSection, y);
            Alike(s, z) && SameStep(s, z, y, recoveries, inSection)
  {
    var rest := ItemStep(s, recoveries, true, inSection).rest;
    var x := s[..ResyncLength(s, recoveries + 1 > MAX_RECOVERIES)];
    RegionOf(s, recoveries, true, inSection);
    RegionOf(s, recoveries, false, inSection);
    Empties(Cleaned(x));
    AlikeShowsSame(rest, y);
    FailDroppedAt(x, rest, y, recoveries, inSection);
  }

  lemma FailDroppedAt(x: string, rest: string, y: string, recoveries: nat, inSection: bool)
    requires EndsLine(x) && FailsAt(x) && EndsLine(x + rest) && TailHarmless(x + rest) && ShowsSame(rest, y)
    requires ResyncLength(x + rest, recoveries + 1 > MAX_RECOVERIES) == |x|
    requires Lex(x + rest).kind != Section && Failure(x + rest, inSection).Some?
    ensures Alike(x + rest, Cleaned(x) + y) && SameStep(x + rest, Cleaned(x) + y, y, recoveries, inSection)
  {
    var n := NextLine(x);
    var reason := Failure(x + rest, inSection).value;
    RegionLines(x, rest);
    KeptRegion(x, rest, y, recoveries + 1 > MAX_RECOVERIES);
    Associate(x[..n], Dropped(x[n..]), y);
    HarmlessTail(x[..n], x[n..] + rest);
    FailsWithout(x[..n], x[n..], rest, y, inSection);
    RecoversWithout(x, rest, y, reason, recoveries, true);
    RecoversWithout(x, rest, y, reason, recoveries, false);
    SameFailure(x + rest, Cleaned(x) + y, rest, y, reason, recoveries, inSection);
  }

  lemma HarmlessTail(l: string, q: string)
    requires IsLine(l) && TailHarmless(l + q)
    ensures MarkersHarmless(q)
  {
    LineOf(l, q);
  }
}
