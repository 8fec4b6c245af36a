/** The tokenizer: a cursor over the text with one peeked token, `Unread` and a rewinding `Resync`. */
module ConfigTokenizer {
  import opened Text
  import opened ConfigTokens
  import opened ConfigGrammar

  /** A token and where it starts in the text. */
  datatype Located = Located(token: Token, pos: nat)

  datatype Taken =
    | Took(token: Token)
    | Mismatch(reason: string)

  class Tokenizer {
    const buf: string
    var slice: string
    var nextToken: Option<Located>
    var pos: nat

    /** The slice is what follows the position; a peeked token is the text just before it. */
    ghost predicate Valid()
      reads this
    {
      && pos <= |buf| && slice == buf[pos..]
      && (nextToken.Some? ==>
            var l := nextToken.value;
            l.pos < pos && l.pos + |l.token.text| == pos && l.token == Lex(buf[l.pos..]))
    }

    /** What a caller has not taken yet, a peeked token included. */
    ghost function Rest(): string
      requires Valid()
      reads this
    {
      if nextToken.Some? then buf[nextToken.value.pos..] else slice
    }

    constructor (buf: string)
      ensures Valid() && Rest() == buf && this.buf == buf
    {
      this.buf := buf;
      slice := buf;
      nextToken := None;
      pos := 0;
    }

    /** `None` stands for the end of the iteration. */
    method Next() returns (r: Option<Located>)
      requires Valid()
      modifies this
      ensures Valid() && nextToken.None?
      ensures r.None? <==> old(Rest()) == ""
      ensures r.None? ==> Rest() == ""
      ensures r.Some? ==> r.value == Located(Lex(old(Rest())), |buf| - |old(Rest())|)
      ensures r.Some? ==> Rest() == After(old(Rest()), r.value.token)
    {
      if nextToken.Some? {
        r := nextToken;
        nextToken := None;
        assert slice == After(old(Rest()), r.value.token);
        return;
      }
      if |slice| == 0 {
        return None;
      }
      r := Scan();
    }

    /** Tries the rules in order on the slice. */
    method Scan() returns (r: Option<Located>)
      requires Valid() && nextToken.None? && slice != ""
      modifies this`pos, this`slice
      ensures Valid()
      ensures r == Some(Located(Lex(old(slice)), old(pos))) && slice == After(old(slice), r.value.token)
    {
      var i := 0;
      LaterRuleMatches(slice, 0);
      while i < |CONFIG_SPEC|
        invariant 0 <= i <= |CONFIG_SPEC|
        invariant slice == old(slice) && pos == old(pos)
        invariant FirstMatch(CONFIG_SPEC[i..], slice) == FirstMatch(CONFIG_SPEC, slice)
      {
        var n := MatchLength(CONFIG_SPEC[i], slice);
        if n > 0 {
          r := Some(Located(Token(RuleKind(CONFIG_SPEC[i]), slice[..n]), pos));
          pos := pos + n;
          slice := slice[n..];
          return;
        }
        assert CONFIG_SPEC[i..][1..] == CONFIG_SPEC[i + 1..];
        i := i + 1;
      }
      assert false;
    }

    method Peek() returns (r: Option<Located>)
      requires Valid()
      modifies this
      ensures Valid() && Rest() == old(Rest())
      ensures r.None? <==> Rest() == ""
      ensures r.Some? ==> nextToken == r && r.value == Located(Lex(Rest()), |buf| - |Rest()|)
      ensures r.Some? ==> slice == After(Rest(), r.value.token)
    {
      if nextToken.None? {
        ghost var start := pos;
        r := Next();
        if r.None? {
          return;
        }
        assert buf[start..] == old(Rest());
        nextToken := r;
      }
      r := nextToken;
    }

    method Take(kind: Kind) returns (r: Taken)
      requires Valid()
      modifies this
      ensures Valid() && nextToken.None?
      ensures r.Took? <==> old(Rest()) != "" && Lex(old(Rest())).kind == kind
      ensures r.Took? ==> r.token == Lex(old(Rest())) && Rest() == After(old(Rest()), r.token)
      ensures r.Mismatch? ==>
                r.reason == "Expected " + KindName(kind) + ", got " +
                            (if old(Rest()) == "" then "end of file" else KindName(Lex(old(Rest())).kind))
    {
      var l := Next();
      if l.Some? && l.value.token.kind == kind {
        r := Took(l.value.token);
      } else {
        var got := if l.Some? then KindName(l.value.token.kind) else "end of file";
        r := Mismatch("Expected " + KindName(kind) + ", got " + got);
      }
    }

    /** Puts back the end of the text taken last; nothing may have been peeked since. */
    method Unread(s: string)
      requires Valid() && nextToken.None?
      requires |s| <= pos && buf[pos - |s|..pos] == s
      modifies this
      ensures Valid() && nextToken.None? && Rest() == s + old(Rest())
    {
      if s != "" {
        nextToken := None;
        slice := s + slice;
        pos := pos - |s|;
        assert buf[pos..] == buf[pos..pos + |s|] + buf[pos + |s|..];
      }
    }

    /** Rewinds to the start of a failed construct and skips to where parsing can resume. */
    method Resync(startPos: nat, toEof: bool) returns (text: string)
      requires Valid() && startPos <= |buf|
      modifies this
      ensures Valid() && nextToken.None?
      ensures text == buf[startPos..][..ResyncLength(buf[startPos..], toEof)]
      ensures Rest() == buf[startPos..][ResyncLength(buf[startPos..], toEof)..]
    {
      var p := |buf|;
      if !toEof {
        p := SkipTo(IsResyncLine, buf, startPos);
      }
      assert p == startPos + ResyncLength(buf[startPos..], toEof);
      DropDrop(buf, startPos, p - startPos);
      text := buf[startPos..p];
      nextToken := None;
      pos := p;
      slice := buf[p..];
    }
  }

  /** Where parsing can resume after a construct that starts at `start`. */
  method SkipTo(resumes: string -> bool, buf: string, start: nat) returns (p: nat)
    requires start <= |buf|
    ensures p == start + SkipLength(resumes, buf[start..]) && p <= |buf|
  {
    var n := NextLine(buf[start..]);
    DropDrop(buf, start, n);
    p := SkipLines(resumes, buf, start + n);
  }

  /** The loop of a resync: from a line start, over the lines where parsing cannot resume. */
  method SkipLines(resumes: string -> bool, buf: string, start: nat) returns (p: nat)
    requires start <= |buf|
    ensures start <= p <= |buf|
    ensures p == start + LinesUntil(resumes, buf[start..])
  {
    p := start;
    ghost var end := start + LinesUntil(resumes, buf[start..]);
    while p < |buf|
      invariant start <= p <= |buf|
      invariant p + LinesUntil(resumes, buf[p..]) == end
    {
      LinesUntilOne(resumes, buf, p);
      var rest := buf[p..];
      if resumes(rest[..LineLength(rest)]) {
        return;
      }
      p := p + NextLine(rest);
    }
    assert |buf[p..]| == 0;
  }

  lemma LinesUntilOne(resumes: string -> bool, buf: string, p: nat)
    requires p < |buf|
    ensures p + NextLine(buf[p..]) <= |buf|
    ensures LinesUntil(resumes, buf[p..]) ==
            if resumes(buf[p..][..LineLength(buf[p..])]) then 0
            else NextLine(buf[p..]) + LinesUntil(resumes, buf[p + NextLine(buf[p..])..])
  {
    DropDrop(buf, p, NextLine(buf[p..]));
  }

  lemma DropDrop(s: string, i: nat, n: nat)
    requires i + n <= |s|
    ensures s[i..][n..] == s[i + n..]
    ensures s[i..][..n] == s[i..i + n]
  {
  }
}
