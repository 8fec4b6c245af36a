/** Options, sections and recoveries, said of the text: what makes an option, what a section keeps, and where parsing
    resumes after an error. */
module ConfigConstructs {
  import opened Text
  import opened ConfigTokens
  import opened ConfigTree
  import opened ConfigGrammar
  import E = ConfigValueEnd
  import F = ConfigFailures

  // ------------------------------------------------------------------------------------------------ options

  /** After `n` characters of whitespace comes an assignment. */
  predicate AssignsAt(s: string, n: nat) {
    n < |s| && AllSpace(s[..n]) && (s[n] == ':' || s[n] == '=')
  }

  lemma AssignAfterSpace(r: string)
    requires r != ""
    ensures var n := |TrailingSpace(r)|;
            (r[n..] != "" && Lex(r[n..]).kind == AssignOp) <==> AssignsAt(r, n)
  {
    var n := |TrailingSpace(r)|;
    if r[n..] != "" {
      F.AssignFirst(r[n..]);
      assert r[n..][0] == r[n];
    }
    assert AllSpace(r[..n]);
  }

  lemma SpaceBeforeAssign(r: string, n: nat)
    requires AssignsAt(r, n)
    ensures |TrailingSpace(r)| == n
  {
    if n == 0 {
      F.AssignFirst(r);
    } else {
      assert IsSpace(r[..n][0]);
      assert forall i | 0 <= i < n :: IsSpace(r[i]) by {
        forall i | 0 <= i < n ensures IsSpace(r[i]) {
          assert IsSpace(r[..n][i]);
        }
      }
      F.SpaceLengthOnly(r, n);
      BlankBefore(r);
      assert !StartsComment(r);
      F.SpaceToken(r);
    }
  }

  lemma OptionFound(s: string, name: string, r: string, n: nat)
    requires s != "" && Lex(s).kind == Word && name == Lex(s).text && r == s[|name|..] && AssignsAt(r, n)
    ensures var v := ParseValue(r[n + 1..], "gcode" <= name);
            ParseOption(s) == Success(OptionItem(name, r[..n], [r[n]], v.value), v.rest)
  {
    SpaceBeforeAssign(r, n);
    AssignAfterSpace(r);
    var r2 := r[n..];
    assert r2[0] == r[n] && Lex(r2).text == [r[n]] && r2[1..] == r[n + 1..];
    assert TrailingSpace(r) == r[..n];
  }

  lemma OptionNeedsAssign(s: string, name: string, r: string)
    requires s != "" && Lex(s).kind == Word && name == Lex(s).text && r == s[|name|..] && ParseOption(s).Success?
    ensures AssignsAt(r, |TrailingSpace(r)|)
  {
    AssignAfterSpace(r);
  }

  /** A word and, behind any whitespace, an assignment make an option, and nothing else does. Its value is what follows,
      up to where the values of its kind end. */
  lemma OptionIs(s: string)
    requires s != "" && Lex(s).kind == Word
    ensures var name := Lex(s).text;
            var r := s[|name|..];
            && (ParseOption(s).Success? <==> exists n: nat :: AssignsAt(r, n))
            && forall n: nat | AssignsAt(r, n) ::
                 var value := ParseValue(r[n + 1..], "gcode" <= name).value;
                 var rest := E.FirstEnd(E.Reading("", r[n + 1..]), "gcode" <= name).rest;
                 ParseOption(s) == Success(OptionItem(name, r[..n], [r[n]], value), rest)
  {
    var name := Lex(s).text;
    var r := s[|name|..];
    if ParseOption(s).Success? {
      OptionNeedsAssign(s, name, r);
    }
    forall n: nat | AssignsAt(r, n)
      ensures var value := ParseValue(r[n + 1..], "gcode" <= name).value;
              var rest := E.FirstEnd(E.Reading("", r[n + 1..]), "gcode" <= name).rest;
              ParseOption(s) == Success(OptionItem(name, r[..n], [r[n]], value), rest)
    {
      OptionFound(s, name, r, n);
      E.ValueEnds(r[n + 1..], "gcode" <= name);
    }
  }

  // ----------------------------------------------------------------------------------------------- sections

  /** A section keeps its items up to the last option and a whitespace item right after it. */
  lemma {:induction false} LastOptionIs(body: seq<Item>)
    ensures var n := AfterLastOption(body);
            && (n > 0 ==> body[n - 1].OptionItem?) && forall i | n <= i < |body| :: !body[i].OptionItem?
  {
    if body != [] && !body[|body| - 1].OptionItem? {
      LastOptionIs(body[..|body| - 1]);
      assert forall i | 0 <= i < |body| - 1 :: body[..|body| - 1][i] == body[i];
    }
  }

  lemma SectionKeepsIs(body: seq<Item>, n: nat)
    requires n <= |body| && (n > 0 ==> body[n - 1].OptionItem?) && forall i | n <= i < |body| :: !body[i].OptionItem?
    ensures SectionKeeps(body) == if n < |body| && body[n].SpaceItem? then n + 1 else n
  {
    LastOptionIs(body);
  }

  // --------------------------------------------------------------------------------------- exclusion blocks

  const MARK := "# EXCLUDE FROM CONFIG BUILDER"

  /** A comment comes next that starts, behind any whitespace, with the mark. */
  predicate MarkAhead(s: string) {
    s != "" && Lex(s).kind == Comment &&
    var text := Lex(s).text;
    exists k | 0 <= k <= |text| :: AllSpace(text[..k]) && MARK <= text[k..]
  }

  lemma MarkIs(s: string)
    requires s != ""
    ensures IsMagicComment(Lex(s)) <==> MarkAhead(s)
  {
    var text := Lex(s).text;
    SpaceBefore(text);
    if MarkAhead(s) {
      var k :| 0 <= k <= |text| && AllSpace(text[..k]) && MARK <= text[k..];
      assert text[k] == text[k..][0] == '#';
      F.SpaceLengthOnly(text, k);
    }
  }

  /** A section goes on to the end of the text, the next header or the mark. */
  lemma SectionEndsWhere(s: string)
    ensures SectionEnds(s) <==> s == "" || Lex(s).kind == Section || MarkAhead(s)
  {
    if s != "" {
      MarkIs(s);
    }
  }

  lemma {:induction false} ExclusionReadsAll(body: seq<Block>, s: string, recoveries: nat, marker: bool)
    ensures ExclusionLoop(body, s, recoveries, marker).rest == ""
    decreases |s|
  {
    if s != "" {
      var step := BlockStep(s, recoveries, marker);
      BlockStepProgress(s, recoveries, marker);
      ExclusionReadsAll(body + step.value, step.rest, step.recoveries, marker);
    }
  }

  lemma {:induction false} TopsArePlain(blocks: seq<Block>)
    ensures forall i | 0 <= i < |AsTops(blocks)| :: AsTops(blocks)[i].Plain?
  {
    if blocks != [] {
      TopsArePlain(blocks[1..]);
    }
  }

  /** Where a document is at the mark, one exclusion block takes everything to the end of the text; anywhere else no
      exclusion block begins. */
  lemma MarkTakesRest(body: Document, s: string, recoveries: nat, marker: bool, origin: Option<string>)
    requires s != ""
    ensures var r := DocumentLoop(body, s, recoveries, marker, origin);
            if MarkAhead(s) then
              && r.rest == "" && |r.value| == |body| + 1 && r.value[..|body|] == body
              && r.value[|body|].Exclusion? && r.value[|body|].origin == origin
            else
              var step := BlockStep(s, recoveries, marker);
              && (forall i | 0 <= i < |AsTops(step.value)| :: AsTops(step.value)[i].Plain?)
              && r == DocumentLoop(body + AsTops(step.value), step.rest, step.recoveries, marker, origin)
  {
    MarkIs(s);
    if MarkAhead(s) {
      var c := ParseComment(s);
      ExclusionReadsAll([ItemBlock(CommentItem(c.value))], c.rest, recoveries, marker);
    } else {
      TopsArePlain(BlockStep(s, recoveries, marker).value);
    }
  }

  // ----------------------------------------------------------------------------------------------- recovery

  /** A bracketed text, or a word, blanks and an assignment, at the start of the line. */
  predicate CanResume(line: string) {
    || (line != "" && line[0] == '['
        && exists j | 0 < j < |line| :: line[j] == ']' && '\r' !in line[..j] && '\n' !in line[..j])
    || (exists i, j | 0 < i <= j < |line| ::
          && IsWordChar(line[0]) && (forall k | 0 < k < i :: IsWordTail(line[k])) && AllBlank(line[i..j])
          && (line[j] == ':' || line[j] == '='))
  }

  lemma HeaderResumes(line: string)
    requires line != "" && line[0] == '['
    ensures IsResyncLine(line) <==> CanResume(line)
  {
    BodyIs(line);
    var n := CommentBody(line);
    if ']' in line[..n] {
      var j :| 0 <= j < n && line[..n][j] == ']';
      assert line[..n][..j] == line[..j];
      assert line[j] == ']' && forall i | 0 <= i < j :: line[i] == line[..n][i];
    }
    if j :| 0 < j < |line| && line[j] == ']' && '\r' !in line[..j] && '\n' !in line[..j] {
      assert forall i | 0 <= i < j :: line[i] == line[..j][i];
      assert j < n;
      assert line[..n][j] == ']';
    }
  }

  lemma {:induction false} BodyIs(s: string)
    ensures var n := CommentBody(s);
            && (forall i | 0 <= i < n :: s[i] != '\r' && s[i] != '\n') && (n < |s| ==> s[n] == '\r' || s[n] == '\n')
  {
    if s != "" && s[0] != '\r' && s[0] != '\n' {
      BodyIs(s[1..]);
    }
  }

  lemma {:induction false} TailIs(s: string)
    ensures var n := WordTailLength(s);
            (forall i | 0 <= i < n :: IsWordTail(s[i])) && (n < |s| ==> !IsWordTail(s[n]))
  {
    if s != "" && IsWordTail(s[0]) {
      TailIs(s[1..]);
    }
  }

  lemma WordResumes(line: string)
    requires line != "" && IsWordChar(line[0])
    ensures IsResyncLine(line) <==> CanResume(line)
  {
    TailIs(line[1..]);
    var n := 1 + WordTailLength(line[1..]);
    var q := line[n..];
    BlankBefore(q);
    var b := BlankLength(q);
    if IsResyncLine(line) {
      assert line[n..n + b] == q[..b] && line[n + b..][0] == line[n + b];
      assert forall k | 0 < k < n :: line[k] == line[1..][k - 1];
    }
    if CanResume(line) {
      var i, j :| 0 < i <= j < |line| && IsWordChar(line[0]) && (forall k | 0 < k < i :: IsWordTail(line[k]))
                  && AllBlank(line[i..j]) && (line[j] == ':' || line[j] == '=');
      WordFound(line, i, j);
    }
  }

  lemma WordFound(line: string, i: nat, j: nat)
    requires 0 < i <= j < |line| && IsWordChar(line[0]) && (forall k | 0 < k < i :: IsWordTail(line[k]))
    requires AllBlank(line[i..j]) && (line[j] == ':' || line[j] == '=')
    ensures IsResyncLine(line)
  {
    TailIs(line[1..]);
    assert forall k | 0 < k < i :: line[1..][k - 1] == line[k];
    if i < j {
      assert line[i..j][0] == line[i];
    }
    assert line[1..][i - 1] == line[i] && !IsWordTail(line[i]);
    assert WordTailLength(line[1..]) == i - 1;
    E.SliceOfDrop(line, i, i, j);
    BlankLengthOnly(line[i..], j - i);
    assert line[j..][0] == line[j];
  }

  lemma ResumesIs(line: string)
    ensures IsResyncLine(line) <==> CanResume(line)
  {
    if line != "" && line[0] == '[' {
      HeaderResumes(line);
    } else if line != "" && IsWordChar(line[0]) {
      WordResumes(line);
    }
  }

  /** `k` is where a line of `s` starts, behind the first. */
  predicate StartsLine(s: string, k: nat) {
    0 < k < |s| && s[k - 1] == '\n'
  }

  /** The first line of `s` is one where parsing resumes. */
  predicate Resumes(resumes: string -> bool, s: string) {
    resumes(s[..LineLength(s)])
  }

  lemma FirstLine(s: string)
    ensures Resumes(IsResyncLine, s) <==> CanResume(Lines(s)[0])
  {
    ResumesIs(s[..LineLength(s)]);
    if LineLength(s) == |s| {
      assert s[..|s|] == s;
    }
  }

  lemma NextLineEnds(s: string)
    requires s != ""
    ensures var m := NextLine(s);
            0 < m <= |s| && (m < |s| ==> s[m - 1] == '\n') && forall k | 0 <= k < m - 1 :: s[k] != '\n'
  {
    LineLengthIs(s);
  }

  lemma DropTwice(s: string, m: nat, n: nat)
    requires m <= n <= |s|
    ensures s[m..][n - m..] == s[n..] && (m < n ==> s[m..][n - m - 1] == s[n - 1])
  {
  }

  lemma {:induction false} ResumesFrom(resumes: string -> bool, s: string, m: nat, n: nat)
    requires m <= |s| && n == m + LinesUntil(resumes, s[m..])
    ensures n <= |s| && (m < n < |s| ==> s[n - 1] == '\n') && (n < |s| ==> Resumes(resumes, s[n..]))
    decreases |s| - m
  {
    var t := s[m..];
    if t != "" && !Resumes(resumes, t) {
      var j := NextLine(t);
      NextLineEnds(t);
      DropTwice(s, m, m + j);
      ResumesFrom(resumes, s, m + j, n);
    }
  }

  lemma LineIsOver(t: string, k: nat)
    requires 0 < k <= |t| && t[k - 1] == '\n'
    ensures 0 < NextLine(t) <= k
  {
    NextLineEnds(t);
  }

  lemma {:induction false} NotEarlier(resumes: string -> bool, s: string, m: nat, n: nat, k: nat)
    requires m <= |s| && n == m + LinesUntil(resumes, s[m..])
    requires m <= k < n && (m < k ==> s[k - 1] == '\n')
    ensures !Resumes(resumes, s[k..])
    decreases |s| - m
  {
    if m < k {
      DropTwice(s, m, k);
      LineIsOver(s[m..], k - m);
      var j := NextLine(s[m..]);
      DropTwice(s, m, m + j);
      NotEarlier(resumes, s, m + j, n, k);
    }
  }

  /** After a construct that failed at the front of `s`, its line is skipped and every further line that cannot start a
      section or an option; parsing resumes at the first that can, or at the end. */
  lemma ResumesWhere(s: string, k: nat)
    requires s != ""
    ensures var n := ResyncLength(s, false);
            && 0 < n <= |s| && (n < |s| ==> StartsLine(s, n) && CanResume(Lines(s[n..])[0]))
            && (k < n && StartsLine(s, k) ==> !CanResume(Lines(s[k..])[0]))
  {
    var m, n := NextLine(s), ResyncLength(s, false);
    NextLineEnds(s);
    ResumesFrom(IsResyncLine, s, m, n);
    FirstLine(s[n..]);
    if k < n && StartsLine(s, k) {
      NotEarlier(IsResyncLine, s, m, n, k);
      FirstLine(s[k..]);
    }
  }
}
