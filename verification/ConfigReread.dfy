/** A construct that is read to its end before `u` is read the same whatever follows `u`. */
module ConfigReread {
  import opened Text
  import opened ConfigTokens
  import opened ConfigTree
  import opened ConfigGrammar
  import opened ConfigLocality

  /** The same value was read from both texts, and they stand at the same place. */
  ghost predicate SameRead<T(!new)>(r: Parsed<T>, r2: Parsed<T>, a: string, c: Cut) {
    && |c.u| + |c.q| <= |r.rest| <= |Old(a, c)|
    && r.value == r2.value && AtSamePlace(r.rest, r2.rest, a, c)
  }

  ghost predicate AtSamePlace(rest: string, rest2: string, a: string, c: Cut)
    requires |c.u| + |c.q| <= |rest| <= |Old(a, c)|
  {
    var n := |Old(a, c)| - |rest|;
    rest == Old(a[n..], c) && rest2 == New(a[n..], c)
  }

  lemma AtSamePlaceFrom(rest: string, rest2: string, a: string, c: Cut, n: nat)
    requires n <= |a| && |c.u| + |c.q| <= |rest| <= |Old(a[n..], c)| && AtSamePlace(rest, rest2, a[n..], c)
    ensures |rest| <= |Old(a, c)| && AtSamePlace(rest, rest2, a, c)
  {
    var m := |Old(a[n..], c)| - |rest|;
    assert a[n..][m..] == a[n + m..];
  }

  lemma AtStart(a: string, c: Cut)
    ensures AtSamePlace(Old(a, c), New(a, c), a, c)
  {
    assert a[0..] == a;
  }

  lemma NotFar(a: string, c: Cut, n: nat)
    requires n <= |Old(a, c)| && |c.u| + |c.q| <= |Old(a, c)[n..]|
    ensures n <= |a|
  {
  }

  /** The token at the front and the places behind it. */
  lemma TokenSwap(a: string, c: Cut)
    requires Sound(c) && |c.u| + |c.q| <= |After(Old(a, c), Lex(Old(a, c)))|
    ensures var n := |Lex(Old(a, c)).text|;
            Lex(New(a, c)) == Lex(Old(a, c)) && n <= |a|
            && After(Old(a, c), Lex(Old(a, c))) == Old(a[n..], c) && After(New(a, c), Lex(New(a, c))) == New(a[n..], c)
  {
    NotFar(a, c, |Lex(Old(a, c)).text|);
    LexSwap(a, c);
    OldDrop(a, c, |Lex(Old(a, c)).text|);
  }

  /** Whitespace ends before `u`. */
  lemma SpaceInReach(a: string, c: Cut)
    requires Sound(c) && Lex(Old(a, c)).kind == Whitespace
    ensures |c.u| + |c.q| <= |After(Old(a, c), Lex(Old(a, c)))|
  {
    if |Lex(Old(a, c)).text| > |a| {
      SpaceReaches(Lex(Old(a, c)).text, a, c);
    }
  }

  lemma SpaceReaches(t: string, a: string, c: Cut)
    requires c.u != "" && t <= Old(a, c) && AllSpace(t) && |t| > |a|
    ensures IsSpace(c.u[0])
  {
    assert t[|a|] == Old(a, c)[|a|] == c.u[0];
  }

  // ---------------------------------------------------------------------------------------------- comments

  lemma {:induction false} CommentLoopSwap(parts: seq<CommentPart>, current: string, a: string, c: Cut)
    requires Sound(c) && |c.u| + |c.q| <= |CommentLoop(parts, current, Old(a, c)).rest|
    ensures SameRead(CommentLoop(parts, current, Old(a, c)), CommentLoop(parts, current, New(a, c)), a, c)
    decreases |a|
  {
    var s := Old(a, c);
    var t := Lex(s);
    if t.kind == Whitespace && '\n' in t.text {
      LexSwap(a, c);
      AtStart(a, c);
    } else {
      var found := t.kind == Placeholder;
      var nextParts := if found then FlushComment(parts, current) + [CommentPlaceholder(Inner(t.text))] else parts;
      var next := if found then "" else current + t.text;
      CommentLoopProgress(nextParts, next, After(s, t));
      TokenSwap(a, c);
      CommentLoopSwap(nextParts, next, a[|t.text|..], c);
      AtSamePlaceFrom(CommentLoop(parts, current, s).rest, CommentLoop(parts, current, New(a, c)).rest, a, c, |t.text|);
    }
  }

  lemma CommentSwap(a: string, c: Cut)
    requires Sound(c) && |c.u| + |c.q| <= |ParseComment(Old(a, c)).rest|
    ensures Lex(New(a, c)) == Lex(Old(a, c))
    ensures SameRead(ParseComment(Old(a, c)), ParseComment(New(a, c)), a, c)
  {
    var s := Old(a, c);
    var t := Lex(s);
    CommentLoopProgress([], t.text, After(s, t));
    TokenSwap(a, c);
    CommentLoopSwap([], t.text, a[|t.text|..], c);
    AtSamePlaceFrom(ParseComment(s).rest, ParseComment(New(a, c)).rest, a, c, |t.text|);
  }

  // ------------------------------------------------------------------------------------------------ values

  lemma {:induction false} ContinuationSwap(w: string, q: string, q2: string)
    requires w == "" || EndsLine(w)
    requires ContinuationFollows(q) <==> ContinuationFollows(q2)
    ensures ContinuationFollows(w + q) <==> ContinuationFollows(w + q2)
    decreases |w|
  {
    if w == "" {
      assert w + q == q && w + q2 == q2;
    } else {
      var n := LineLength(w);
      LineEndStops(w);
      LineStops(w, q);
      LineStops(w, q2);
      TakeAppend(w, q, n);
      TakeAppend(w, q2, n);
      DropAppend(w, q, n + 1);
      DropAppend(w, q2, n + 1);
      ContinuationSwap(w[n + 1..], q, q2);
    }
  }

  lemma {:induction false} MarginUpTo(a: string, u: string)
    requires u != "" && !IsSpace(u[0])
    ensures MarginLength(a + u) <= |a|
  {
    if a == "" {
      assert a + u == u;
    } else {
      MarginUpTo(a[1..], u);
      assert (a + u)[1..] == a[1..] + u;
    }
  }

  lemma {:induction false} MarginStops(w: string, q: string)
    requires MarginLength(w) < |w|
    ensures MarginLength(w + q) == MarginLength(w)
  {
    if IsBlank(w[0]) || w[0] == '\r' || w[0] == '\n' {
      MarginStops(w[1..], q);
      DropAppend(w, q, 1);
    }
  }

  lemma {:induction false} VariableNameStops(w: string, q: string)
    requires EndsLine(w)
    ensures VariableNameLength(w + q) == VariableNameLength(w) < |w|
  {
    if IsWordChar(w[0]) {
      EndsLineDrop(w, 1);
      VariableNameStops(w[1..], q);
      DropAppend(w, q, 1);
    }
  }

  lemma VariableLineLocal(r: string, q: string)
    requires EndsLine(r)
    ensures IsVariableLine(r + q) <==> IsVariableLine(r)
  {
    PrefixLocal("variable_", r, q);
    if "variable_" <= r {
      DropAppend(r, q, 9);
      NamedLineLocal(r[9..], q);
    }
  }

  lemma NamedLineLocal(r: string, q: string)
    requires EndsLine(r)
    ensures VariableNameLength(r + q) == VariableNameLength(r) < |r|
    ensures var n := VariableNameLength(r);
            var x := (r + q)[n + BlankLength((r + q)[n..])..];
            var y := r[n + BlankLength(r[n..])..];
            y != "" && x != "" && x[0] == y[0]
  {
    VariableNameStops(r, q);
    var n := VariableNameLength(r);
    EndsLineDrop(r, n);
    DropAppend(r, q, n);
    LineEndStops(r[n..]);
    BlankStops(r[n..], q);
  }

  lemma BoundarySwap(a: string, c: Cut)
    requires Sound(c)
    ensures LooksLikeGcodeBoundary(Old(a, c)) <==> LooksLikeGcodeBoundary(New(a, c))
  {
    Whole(a, c.u);
    BoundaryLocal(a, c.u, c.q);
    BoundaryLocal(a, c.u, c.q2);
  }

  lemma BoundaryLocal(a: string, u: string, q: string)
    requires EndsLine(u) && EndsLine(a + u) && !IsSpace(u[0])
    ensures LooksLikeGcodeBoundary(a + u + q) <==> LooksLikeGcodeBoundary(a + u)
  {
    var m := MarginLength(a + u);
    MarginUpTo(a, u);
    MarginStops(a + u, q);
    DropAppend(a + u, q, m);
    EndsLineDrop(a + u, m);
    VariableLineLocal((a + u)[m..], q);
  }

  lemma EndsValueSwap(st: ValueState, text: string, a: string, c: Cut, asIs: bool)
    requires Sound(c)
    ensures EndsValue(st, text, Old(a, c), asIs) <==> EndsValue(st, text, New(a, c), asIs)
  {
    Whole(a, c.u);
    BoundarySwap(a, c);
    ContinuationSwap(a + c.u, c.q, c.q2);
  }

  lemma SpaceStepSwap(st: ValueState, a: string, c: Cut, asIs: bool)
    requires Sound(c) && Lex(Old(a, c)).kind == Whitespace
    ensures ValueStep(st, Old(a, c), asIs).None? <==> ValueStep(st, New(a, c), asIs).None?
    ensures ValueStep(st, Old(a, c), asIs).Some? ==>
              SameRead(ValueStep(st, Old(a, c), asIs).value, ValueStep(st, New(a, c), asIs).value, a, c)
  {
    var t := Lex(Old(a, c));
    SpaceInReach(a, c);
    TokenSwap(a, c);
    EndsValueSwap(st, t.text, a[|t.text|..], c, asIs);
    OldDrop(a, c, |TakenSpace(t.text)|);
  }

  lemma CommentStepSwap(st: ValueState, a: string, c: Cut)
    requires Sound(c) && Lex(Old(a, c)).kind == Comment
    requires |c.u| + |c.q| <= |ParseComment(Old(a, c)).rest|
    ensures var x, y := ValueStep(st, Old(a, c), false), ValueStep(st, New(a, c), false);
            x.Some? && y.Some? && SameRead(x.value, y.value, a, c)
  {
    CommentSwap(a, c);
  }

  /** Any other step depends on the token alone. */
  lemma TokenStepIs(st: ValueState, s: string, s2: string, asIs: bool)
    requires s != "" && s2 != "" && Lex(s) == Lex(s2)
    requires Lex(s).kind != Whitespace && (Lex(s).kind == Comment ==> asIs)
    ensures ValueStep(st, s, asIs).None? <==> ValueStep(st, s2, asIs).None?
    ensures ValueStep(st, s, asIs).Some? ==>
              var x, y := ValueStep(st, s, asIs).value, ValueStep(st, s2, asIs).value;
              x.value == y.value && x.rest == After(s, Lex(s)) && y.rest == After(s2, Lex(s2))
  {
  }

  lemma TokenStepSwap(st: ValueState, a: string, c: Cut, asIs: bool)
    requires Sound(c) && Lex(Old(a, c)).kind != Whitespace
    requires Lex(Old(a, c)).kind == Comment ==> asIs
    requires |c.u| + |c.q| <= |After(Old(a, c), Lex(Old(a, c)))|
    ensures ValueStep(st, Old(a, c), asIs).None? <==> ValueStep(st, New(a, c), asIs).None?
    ensures ValueStep(st, Old(a, c), asIs).Some? ==>
              SameRead(ValueStep(st, Old(a, c), asIs).value, ValueStep(st, New(a, c), asIs).value, a, c)
  {
    TokenSwap(a, c);
    TokenStepIs(st, Old(a, c), New(a, c), asIs);
  }

  lemma ValueStepSwap(st: ValueState, a: string, c: Cut, asIs: bool)
    requires Sound(c)
    requires ValueStep(st, Old(a, c), asIs).Some? ==> |c.u| + |c.q| <= |ValueStep(st, Old(a, c), asIs).value.rest|
    ensures ValueStep(st, Old(a, c), asIs).None? <==> ValueStep(st, New(a, c), asIs).None?
    ensures ValueStep(st, Old(a, c), asIs).Some? ==>
              SameRead(ValueStep(st, Old(a, c), asIs).value, ValueStep(st, New(a, c), asIs).value, a, c)
  {
    var t := Lex(Old(a, c));
    if t.kind == Whitespace {
      SpaceStepSwap(st, a, c, asIs);
    } else if asIs && t.kind == Section {
      LexSwap(a, c);
    } else if !asIs && t.kind == Comment {
      CommentStepSwap(st, a, c);
    } else {
      TokenStepSwap(st, a, c, asIs);
    }
  }

  lemma {:induction false} ValueLoopSwap(st: ValueState, a: string, c: Cut, asIs: bool)
    requires Sound(c) && |c.u| + |c.q| <= |ValueLoop(st, Old(a, c), asIs).rest|
    ensures SameRead(ValueLoop(st, Old(a, c), asIs), ValueLoop(st, New(a, c), asIs), a, c)
    decreases |a|
  {
    var s := Old(a, c);
    var step := ValueStep(st, s, asIs);
    if step.Some? {
      ValueLoopProgress(step.value.value, step.value.rest, asIs);
    }
    ValueStepSwap(st, a, c, asIs);
    if step.None? {
      AtStart(a, c);
    } else {
      var n := |s| - |step.value.rest|;
      ValueLoopSwap(step.value.value, a[n..], c, asIs);
      AtSamePlaceFrom(ValueLoop(st, s, asIs).rest, ValueLoop(st, New(a, c), asIs).rest, a, c, n);
    }
  }

  // ----------------------------------------------------------------------------------------------- options

  predicate StartsAssign(s: string) {
    s != "" && Lex(s).kind == AssignOp
  }

  /** The whitespace before an assignment. */
  lemma TrailingSwap(a: string, c: Cut)
    requires Sound(c) && StartsAssign(Old(a, c)[|TrailingSpace(Old(a, c))|..])
    ensures TrailingSpace(New(a, c)) == TrailingSpace(Old(a, c))
    ensures |TrailingSpace(Old(a, c))| <= |a|
  {
    if Lex(Old(a, c)).kind == Whitespace {
      SpaceInReach(a, c);
      TokenSwap(a, c);
    } else {
      assert Old(a, c)[0..] == Old(a, c);
      LexSwap(a, c);
    }
  }

  /** What follows the name of an option. */
  function OptionTail(s: string, asIs: bool): Parsed<seq<Line>>
    requires StartsAssign(s)
  {
    ParseValue(After(s, Lex(s)), asIs)
  }

  lemma OptionTailSwap(a: string, c: Cut, asIs: bool)
    requires Sound(c) && StartsAssign(Old(a, c))
    requires |c.u| + |c.q| <= |OptionTail(Old(a, c), asIs).rest|
    ensures Lex(New(a, c)) == Lex(Old(a, c))
    ensures SameRead(OptionTail(Old(a, c), asIs), OptionTail(New(a, c), asIs), a, c)
  {
    var s := Old(a, c);
    ValueLoopProgress(EMPTY_VALUE, After(s, Lex(s)), asIs);
    TokenSwap(a, c);
    var n := |Lex(s).text|;
    ValueLoopSwap(EMPTY_VALUE, a[n..], c, asIs);
    AtSamePlaceFrom(OptionTail(s, asIs).rest, OptionTail(New(a, c), asIs).rest, a, c, n);
  }

  /** An option in the terms above. */
  lemma OptionIs(s: string)
    requires s != ""
    ensures var r1 := After(s, Lex(s));
            var t := TrailingSpace(r1);
            var r2 := r1[|t|..];
            if StartsAssign(r2) then
              var v := OptionTail(r2, "gcode" <= Lex(s).text);
              ParseOption(s) == Success(OptionItem(Lex(s).text, t, Lex(r2).text, v.value), v.rest)
            else ParseOption(s).SyntaxError?
  {
  }

  lemma OptionSwap(a: string, c: Cut)
    requires Sound(c) && ParseOption(Old(a, c)).Success?
    requires |c.u| + |c.q| <= |ParseOption(Old(a, c)).rest|
    ensures Lex(New(a, c)) == Lex(Old(a, c))
    ensures var r, r2 := ParseOption(Old(a, c)), ParseOption(New(a, c));
            r2.Success? && r2.value == r.value && |r.rest| <= |Old(a, c)| && AtSamePlace(r.rest, r2.rest, a, c)
  {
    var s, y := Old(a, c), New(a, c);
    OptionIs(s);
    var r1 := After(s, Lex(s));
    var t := TrailingSpace(r1);
    var asIs := "gcode" <= Lex(s).text;
    ValueLoopProgress(EMPTY_VALUE, After(r1[|t|..], Lex(r1[|t|..])), asIs);
    TokenSwap(a, c);
    var n := |Lex(s).text|;
    TrailingSwap(a[n..], c);
    OldDrop(a[n..], c, |t|);
    OptionTailSwap(a[n..][|t|..], c, asIs);
    OptionIs(y);
    AtSamePlaceFrom(ParseOption(s).rest, ParseOption(y).rest, a[n..], c, |t|);
    AtSamePlaceFrom(ParseOption(s).rest, ParseOption(y).rest, a, c, n);
  }

  // ------------------------------------------------------------------------------------------------- steps

  /** Why the construct at the front cannot be read; options are read only inside sections. */
  function Failure(s: string, inSection: bool): (r: Option<string>)
    requires s != ""
  {
    var t := Lex(s);
    if SimpleItem(t).Some? || t.kind == Comment then None
    else if inSection && t.kind == Word then
      match ParseOption(s)
      case Success(_, _) => None
      case SyntaxError(reason) => Some(reason)
    else Some(UnexpectedToken(t))
  }

  /** The construct at the front and what follows it. */
  function Construct(s: string, inSection: bool): Parsed<Item>
    requires s != "" && Failure(s, inSection).None?
  {
    var t := Lex(s);
    if SimpleItem(t).Some? then Parsed(SimpleItem(t).value, After(s, t))
    else if t.kind == Comment then Parsed(CommentItem(ParseComment(s).value), ParseComment(s).rest)
    else Parsed(ParseOption(s).value, ParseOption(s).rest)
  }

  /** One round of a parsing loop on anything but a section header. */
  function ItemStep(s: string, recoveries: nat, marker: bool, inSection: bool): Progress<seq<Item>>
    requires s != ""
  {
    match Failure(s, inSection)
    case Some(reason) => Recover(s, reason, recoveries, marker)
    case None =>
      var r := Construct(s, inSection);
      Progress([r.value], r.rest, recoveries)
  }

  lemma SectionStepIs(s: string, recoveries: nat, marker: bool)
    requires s != ""
    ensures SectionStep(s, recoveries, marker) == ItemStep(s, recoveries, marker, true)
  {
  }

  lemma OneBlock(item: Item)
    ensures AsBlocks([item]) == [ItemBlock(item)]
  {
    assert [item][1..] == [];
  }

  lemma BlockStepIs(s: string, recoveries: nat, marker: bool)
    requires s != "" && Lex(s).kind != Section
    ensures BlockStep(s, recoveries, marker).value == AsBlocks(ItemStep(s, recoveries, marker, false).value)
    ensures BlockStep(s, recoveries, marker).rest == ItemStep(s, recoveries, marker, false).rest
    ensures BlockStep(s, recoveries, marker).recoveries == ItemStep(s, recoveries, marker, false).recoveries
  {
    if Failure(s, false).None? {
      OneBlock(Construct(s, false).value);
    }
  }

  lemma SimpleConstruct(s: string, inSection: bool)
    requires s != "" && SimpleItem(Lex(s)).Some?
    ensures Failure(s, inSection).None?
    ensures Construct(s, inSection) == Parsed(SimpleItem(Lex(s)).value, After(s, Lex(s)))
  {
  }

  lemma CommentConstruct(s: string, inSection: bool)
    requires s != "" && Lex(s).kind == Comment
    ensures Failure(s, inSection).None?
    ensures Construct(s, inSection) == Parsed(CommentItem(ParseComment(s).value), ParseComment(s).rest)
  {
  }

  lemma OptionConstruct(s: string)
    requires s != "" && Lex(s).kind == Word && ParseOption(s).Success?
    ensures Failure(s, true).None?
    ensures Construct(s, true) == Parsed(ParseOption(s).value, ParseOption(s).rest)
  {
  }

  lemma ConstructKinds(s: string, inSection: bool)
    requires s != "" && Failure(s, inSection).None?
    ensures SimpleItem(Lex(s)).Some? || Lex(s).kind == Comment
            || (inSection && Lex(s).kind == Word && ParseOption(s).Success?)
  {
  }

  lemma ConstructSwap(a: string, c: Cut, inSection: bool)
    requires Sound(c) && Failure(Old(a, c), inSection).None?
    requires |c.u| + |c.q| <= |Construct(Old(a, c), inSection).rest|
    ensures Lex(New(a, c)) == Lex(Old(a, c)) && Failure(New(a, c), inSection).None?
    ensures SameRead(Construct(Old(a, c), inSection), Construct(New(a, c), inSection), a, c)
  {
    var s, y := Old(a, c), New(a, c);
    ConstructKinds(s, inSection);
    if SimpleItem(Lex(s)).Some? {
      SimpleConstruct(s, inSection);
      TokenSwap(a, c);
      SimpleConstruct(y, inSection);
    } else if Lex(s).kind == Comment {
      CommentConstruct(s, inSection);
      CommentSwap(a, c);
      CommentConstruct(y, inSection);
    } else {
      OptionConstruct(s);
      OptionSwap(a, c);
      OptionConstruct(y);
    }
  }
}
