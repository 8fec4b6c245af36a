/** The text a recovery skips: where it ends, what is left of it without markers, and what a marker adds to it. */
module ConfigRegions {
  import opened Text
  import opened ConfigTokens
  import opened ConfigTree
  import opened ConfigGrammar
  import opened ConfigLossless
  import opened ConfigLocality
  import opened ConfigReread

  // ----------------------------------------------------------------------------------------- dropping markers

  function Cleaned(text: string): string {
    JoinLines(DropMarkerLines(Lines(text)))
  }

  /** The lines of a text, without the remainder after the last line break. */
  function BodyLines(s: string): seq<string>
    decreases |s|
  {
    var n := LineLength(s);
    if n == |s| then [] else [s[..n]] + BodyLines(s[n + 1..])
  }

  function Terminated(ls: seq<string>): string {
    if ls == [] then "" else ls[0] + "\n" + Terminated(ls[1..])
  }

  /** The first line of a text that has more text after it. */
  lemma FirstLine(u: string, x: string)
    requires EndsLine(u)
    ensures var n := LineLength(u);
            n < |u| && LineLength(u + x) == n && (u + x)[..n] == u[..n] && (u + x)[n + 1..] == u[n + 1..] + x
            && (u[n + 1..] == "" || EndsLine(u[n + 1..]))
  {
    LineEndStops(u);
    LineStops(u, x);
    TakeAppend(u, x, LineLength(u));
    DropAppend(u, x, LineLength(u) + 1);
  }

  lemma ConsAppend<T>(x: T, ys: seq<T>, zs: seq<T>)
    ensures [x] + (ys + zs) == [x] + ys + zs
  {
  }

  lemma {:induction false} LinesAppend(u: string, x: string)
    requires u == "" || EndsLine(u)
    ensures Lines(u + x) == BodyLines(u) + Lines(x)
    decreases |u|
  {
    if u == "" {
      assert u + x == x;
    } else {
      var n := LineLength(u);
      FirstLine(u, x);
      LinesAppend(u[n + 1..], x);
      ConsAppend(u[..n], BodyLines(u[n + 1..]), Lines(x));
    }
  }

  lemma {:induction false} BodyLinesAppend(u: string, x: string)
    requires u == "" || EndsLine(u)
    ensures BodyLines(u + x) == BodyLines(u) + BodyLines(x)
    decreases |u|
  {
    if u == "" {
      assert u + x == x;
    } else {
      var n := LineLength(u);
      FirstLine(u, x);
      BodyLinesAppend(u[n + 1..], x);
      ConsAppend(u[..n], BodyLines(u[n + 1..]), BodyLines(x));
    }
  }

  lemma {:induction false} DropLinesAppend(xs: seq<string>, ys: seq<string>)
    ensures DropMarkerLines(xs + ys) == DropMarkerLines(xs) + DropMarkerLines(ys)
  {
    if xs == [] {
      assert xs + ys == ys;
    } else {
      DropLinesAppend(xs[1..], ys);
      assert (xs + ys)[1..] == xs[1..] + ys;
      ConsAppend(xs[0], DropMarkerLines(xs[1..]), DropMarkerLines(ys));
    }
  }

  lemma {:induction false} JoinTerminated(ls: seq<string>)
    ensures JoinLines(ls + [""]) == Terminated(ls)
  {
    if ls == [] {
      assert ls + [""] == [""];
    } else {
      JoinTerminated(ls[1..]);
      assert (ls + [""])[1..] == ls[1..] + [""];
    }
  }

  lemma CleanedIs(u: string)
    requires EndsLine(u)
    ensures Cleaned(u) == Terminated(DropMarkerLines(BodyLines(u)))
  {
    LinesAppend(u, "");
    assert u + "" == u;
    assert Lines("") == [""];
    DropLinesAppend(BodyLines(u), [""]);
    NotMarker("");
    OneLine("");
    JoinTerminated(DropMarkerLines(BodyLines(u)));
  }

  lemma OneLine(line: string)
    ensures DropMarkerLines([line]) == if IsMarkerLine(line) then [] else [line]
  {
    assert [line][1..] == [];
  }

  lemma NotMarker(line: string)
    requires line == "" || (!IsSpace(line[0]) && line[0] != '#')
    ensures !IsMarkerLine(line)
  {
    assert SpaceLength(line) == 0;
  }

  lemma {:induction false} TerminatedEnds(ls: seq<string>)
    ensures ls == [] ==> Terminated(ls) == ""
    ensures ls != [] ==> EndsLine(Terminated(ls))
  {
    if ls != [] {
      TerminatedEnds(ls[1..]);
    }
  }

  /** Markers gone, the first line and the last line break of a failed construct are still there. */
  lemma CleanedStart(u: string)
    requires EndsLine(u) && FailsAt(u)
    ensures EndsLine(Cleaned(u)) && FailsAt(Cleaned(u)) && WithoutMarkers(u) == Cleaned(u)
    ensures u[..NextLine(u)] <= Cleaned(u)
  {
    var n := LineLength(u);
    LineEndStops(u);
    LineLengthIs(u);
    CleanedIs(u);
    NotMarker(u[..n]);
    var ls := BodyLines(u[n + 1..]);
    assert ([u[..n]] + ls)[1..] == ls;
    TerminatedEnds(DropMarkerLines(BodyLines(u)));
    KeptFirst(u[..n], DropMarkerLines(ls));
    assert u[..n + 1] == u[..n] + "\n";
    NotBlank(Cleaned(u));
  }

  lemma KeptFirst(line: string, ls: seq<string>)
    ensures line + "\n" <= Terminated([line] + ls)
  {
    assert ([line] + ls)[1..] == ls;
  }

  lemma NotBlank(s: string)
    requires s != "" && !IsSpace(s[0])
    ensures Strip(s) != ""
  {
    StripInk(s);
  }

  lemma OneBodyLine(line: string)
    requires EndsLine(line) && LineLength(line) == |line| - 1
    ensures BodyLines(line) == [line[..|line| - 1]]
  {
    assert line[|line| - 1 + 1..] == "";
    assert BodyLines("") == [];
  }

  /** A marker line at the end changes nothing. */
  lemma CleanedMarker(u: string, line: string)
    requires EndsLine(u) && EndsLine(line) && LineLength(line) == |line| - 1
    requires IsMarkerLine(line[..|line| - 1])
    ensures Cleaned(u + line) == Cleaned(u)
  {
    CleanedIs(u);
    Whole(u, line);
    CleanedIs(u + line);
    BodyLinesAppend(u, line);
    OneBodyLine(line);
    DropLinesAppend(BodyLines(u), BodyLines(line));
    OneLine(line[..|line| - 1]);
    assert DropMarkerLines(BodyLines(u)) + [] == DropMarkerLines(BodyLines(u));
  }

  // -------------------------------------------------------------------------------------- where a region ends

  /** Parsing can resume at once. */
  ghost predicate Resumes(s: string) {
    LinesUntil(IsResyncLine, s) == 0
  }

  /** No line but the first can start afresh. */
  ghost predicate Solid(u: string) {
    LinesUntil(IsResyncLine, u[NextLine(u)..]) == |u| - NextLine(u)
  }

  lemma {:induction false} LinesUntilJoin(resumes: string -> bool, x: string, z: string)
    requires x == "" || EndsLine(x)
    ensures LinesUntil(resumes, x + z) ==
            if LinesUntil(resumes, x) < |x| then LinesUntil(resumes, x) else |x| + LinesUntil(resumes, z)
    decreases |x|
  {
    if x == "" {
      assert x + z == z;
    } else {
      var n := LineLength(x);
      FirstLine(x, z);
      if !resumes(x[..n]) {
        LinesUntilJoin(resumes, x[n + 1..], z);
      }
    }
  }

  lemma NextLineStops(u: string, r: string)
    requires EndsLine(u)
    ensures NextLine(u + r) == NextLine(u) <= |u| && (u + r)[NextLine(u)..] == u[NextLine(u)..] + r
    ensures u[NextLine(u)..] == "" || EndsLine(u[NextLine(u)..])
  {
    FirstLine(u, r);
  }

  /** When exactly the lines of `u` are skipped. */
  lemma RegionIs(u: string, r: string, toEof: bool)
    requires EndsLine(u)
    ensures ResyncLength(u + r, toEof) == |u| <==> if toEof then r == "" else Solid(u) && Resumes(r)
  {
    NextLineStops(u, r);
    LinesUntilJoin(IsResyncLine, u[NextLine(u)..], r);
  }

  lemma SolidMarker(u: string, line: string)
    requires EndsLine(u) && EndsLine(line) && LineLength(line) == |line| - 1 && line[0] == '#'
    ensures Solid(u + line) <==> Solid(u)
  {
    NextLineStops(u, line);
    LinesUntilJoin(IsResyncLine, u[NextLine(u)..], line);
    assert line[..|line| - 1] != "" ==> line[..|line| - 1][0] == '#';
    assert !IsResyncLine(line[..LineLength(line)]);
    assert line[NextLine(line)..] == "";
  }

  /** Text at which parsing resumes continues no value. */
  lemma ResumedText(r: string)
    requires Resumes(r)
    ensures r == "" || r[0] == '[' || IsWordChar(r[0])
    ensures !ContinuationFollows(r)
  {
    if r != "" {
      var line := r[..LineLength(r)];
      assert line[0] == r[0];
      assert BlankLength(line) == 0;
    }
  }
}
