/** The one-pass rewriter of G-code files: tool lines become tool change commands that name the next position. The
    rewriter buffers lines while it looks for that position; here it is compared with a specification that looks
    ahead. Patterns and placeholder substitution are arbitrary functions of a line. */
module ToolChanges {

  datatype Option<T> =
    | None
    | Some(value: T)

  datatype Tool = Tool(number: string, params: string)

  datatype Position = Position(x: string, y: string)

  /** What is written to the output file, one item a write. */
  datatype Item =
    | Fingerprint
    | Plain(line: string)
    | Bare(number: string)
    | Change(tool: Tool, next: Option<Position>)
    | Referenced(tools: string)

  const FINGERPRINT := "; processed by HappyHare"

  function Text(item: Item): string {
    match item
    case Fingerprint => FINGERPRINT + "\n"
    case Plain(line) => line
    case Bare(number) => "T" + number + "\n"
    case Change(tool, next) =>
      "MMU_CHANGE_TOOL TOOL=" + tool.number + tool.params
      + (if next.Some? then " NEXT_POS=\"" + next.value.x + "," + next.value.y + "\"" else "")
      + " ; T" + tool.number + "\n"
    case Referenced(tools) => "; referenced_tools = " + tools + "\n"
  }

  /** What the rewriter is given: the two line patterns and whether to name positions. */
  datatype Patterns = Patterns(
    toolOf: string -> Option<Tool>,
    moveTo: string -> Option<Position>,
    insertNextPos: bool)

  // ----------------------------------------------------------------------------- a specification that looks ahead

  /** Whether a tool line before the `k`-th line still waits for its move. */
  predicate Waiting(p: Patterns, lines: seq<string>, k: nat)
    requires k <= |lines|
  {
    if k == 0 then false
    else if Waiting(p, lines, k - 1) then p.moveTo(lines[k - 1]).None?
    else p.toolOf(lines[k - 1]).Some?
  }

  /** A tool line that starts a tool change. */
  predicate Opens(p: Patterns, lines: seq<string>, k: nat)
    requires k < |lines|
  {
    !Waiting(p, lines, k) && p.toolOf(lines[k]).Some?
  }

  /** The first line from `k` on that is a move to a position. */
  function NextMove(p: Patterns, lines: seq<string>, k: nat): Option<Position>
    requires k <= |lines|
    decreases |lines| - k
  {
    if k == |lines| then None
    else if p.moveTo(lines[k]).Some? then p.moveTo(lines[k])
    else NextMove(p, lines, k + 1)
  }

  lemma {:induction false} NextMoveIs(p: Patterns, lines: seq<string>, k: nat, m: nat)
    requires k <= m <= |lines| && forall i | k <= i < m :: p.moveTo(lines[i]).None?
    ensures m == |lines| ==> NextMove(p, lines, k) == None
    ensures m < |lines| && p.moveTo(lines[m]).Some? ==> NextMove(p, lines, k) == p.moveTo(lines[m])
    decreases m - k
  {
    if k < m {
      NextMoveIs(p, lines, k + 1, m);
    }
  }

  /** What stands for the `k`-th line in the output. */
  function ItemsFor(p: Patterns, lines: seq<string>, k: nat): seq<Item>
    requires k < |lines|
  {
    if !Opens(p, lines, k) then [Plain(lines[k])]
    else
      var tool := p.toolOf(lines[k]).value;
      var next := NextMove(p, lines, k + 1);
      if k + 1 == |lines| then []
      else if next.None? then [Bare(tool.number), Change(tool, None)]
      else [Change(tool, if p.insertNextPos then next else None)]
  }

  function Rewritten(p: Patterns, lines: seq<string>, n: nat): seq<Item>
    requires n <= |lines|
  {
    if n == 0 then [] else Rewritten(p, lines, n - 1) + ItemsFor(p, lines, n - 1)
  }

  function Expanded(lines: seq<string>, expand: string -> string): (r: seq<string>)
    ensures |r| == |lines| && forall k | 0 <= k < |r| :: r[k] == expand(lines[k])
  {
    seq(|lines|, k requires 0 <= k < |lines| => expand(lines[k]))
  }

  // -------------------------------------------------------------------------------------------- the one-pass loop

  function PlainLines(lines: seq<string>): (r: seq<Item>)
    ensures |r| == |lines| && forall k | 0 <= k < |r| :: r[k] == Plain(lines[k])
  {
    seq(|lines|, k requires 0 <= k < |lines| => Plain(lines[k]))
  }

  /** Lines that wait behind a tool line stand for themselves. */
  lemma {:induction false} RewrittenBuffer(p: Patterns, lines: seq<string>, t: nat, n: nat)
    requires t <= n <= |lines|
    requires forall i | t <= i < n :: !Opens(p, lines, i)
    ensures Rewritten(p, lines, n) == Rewritten(p, lines, t) + PlainLines(lines[t..n])
  {
    if t < n {
      RewrittenBuffer(p, lines, t, n - 1);
      assert PlainLines(lines[t..n]) == PlainLines(lines[t..n - 1]) + [Plain(lines[n - 1])];
    } else {
      assert PlainLines(lines[t..n]) == [];
    }
  }

  /** The tool line `t` and what waits behind it, up to line `n`. */
  lemma RewrittenChange(p: Patterns, lines: seq<string>, t: nat, n: nat)
    requires t < n <= |lines| && Opens(p, lines, t)
    requires forall i | t < i < n :: !Opens(p, lines, i)
    ensures Rewritten(p, lines, n) == Rewritten(p, lines, t) + ItemsFor(p, lines, t) + PlainLines(lines[t + 1..n])
  {
    RewrittenBuffer(p, lines, t + 1, n);
  }

  /** `open` is the tool line whose move is awaited, with nothing written since. */
  ghost predicate Buffering(p: Patterns, lines: seq<string>, k: nat, t: nat, written: seq<Item>, buffer: seq<string>,
                            tool: Tool)
    requires k <= |lines|
  {
    && t < k && Opens(p, lines, t) && p.toolOf(lines[t]) == Some(tool)
    && written == [Fingerprint] + Rewritten(p, lines, t)
    && buffer == lines[t + 1..k]
    && forall i | t < i < k :: Waiting(p, lines, i) && p.moveTo(lines[i]).None?
  }

  method WritePlain(written: seq<Item>, buffer: seq<string>) returns (more: seq<Item>)
    ensures more == written + PlainLines(buffer)
  {
    more := written;
    for k := 0 to |buffer|
      invariant more == written + PlainLines(buffer[..k])
    {
      more := more + [Plain(buffer[k])];
      assert PlainLines(buffer[..k + 1]) == PlainLines(buffer[..k]) + [Plain(buffer[k])];
    }
    assert buffer[..|buffer|] == buffer;
  }

  lemma ChangeWritten(p: Patterns, lines: seq<string>, t: nat, n: nat, written: seq<Item>, items: seq<Item>,
                      plain: seq<Item>)
    requires t < n <= |lines| && Opens(p, lines, t)
    requires forall i | t < i < n :: !Opens(p, lines, i)
    requires written == [Fingerprint] + Rewritten(p, lines, t)
    requires items == ItemsFor(p, lines, t) && plain == PlainLines(lines[t + 1..n])
    ensures written + items + plain == [Fingerprint] + Rewritten(p, lines, n)
  {
    RewrittenChange(p, lines, t, n);
    Regroup([Fingerprint], Rewritten(p, lines, t), items, plain);
  }

  lemma Regroup(a: seq<Item>, b: seq<Item>, c: seq<Item>, d: seq<Item>)
    ensures a + b + c + d == a + (b + c + d)
  {
  }

  /** Writes the change and the lines that waited for the move in line `k`. */
  method WriteMove(p: Patterns, written: seq<Item>, buffer: seq<string>, tool: Tool, move: Option<Position>,
                   ghost lines: seq<string>, ghost t: nat, ghost k: nat)
    returns (more: seq<Item>)
    requires t < k < |lines| && buffer == lines[t + 1..k + 1]
    requires Buffering(p, lines, k, t, written, buffer[..|buffer| - 1], tool) && move == p.moveTo(lines[k])
    requires move.Some? && Waiting(p, lines, k)
    ensures more == [Fingerprint] + Rewritten(p, lines, k + 1)
  {
    MoveFound(p, lines, t, k);
    var change := Change(tool, if p.insertNextPos then move else None);
    more := WritePlain(written + [change], buffer);
    ChangeWritten(p, lines, t, k + 1, written, [change], PlainLines(buffer));
  }

  /** Writes what still waits at the end of the file. */
  method WriteRest(p: Patterns, written: seq<Item>, buffer: seq<string>, tool: Option<Tool>, ghost lines: seq<string>,
                   ghost t: nat)
    returns (more: seq<Item>)
    requires tool.None? ==> buffer == [] && written == [Fingerprint] + Rewritten(p, lines, |lines|)
    requires tool.Some? ==> Buffering(p, lines, |lines|, t, written, buffer, tool.value)
    ensures more == [Fingerprint] + Rewritten(p, lines, |lines|)
  {
    more := written;
    if buffer != [] {
      more := more + [Bare(tool.value.number)];
      more := more + [Change(tool.value, None)];
      assert more == written + [Bare(tool.value.number), Change(tool.value, None)];
      more := WritePlain(more, buffer);
    }
    if tool.Some? {
      NothingFound(p, lines, t);
      ChangeWritten(p, lines, t, |lines|, written, ItemsFor(p, lines, t), PlainLines(buffer));
    }
  }

  lemma StepBuffer(p: Patterns, lines: seq<string>, k: nat, t: nat, written: seq<Item>, buffer: seq<string>, tool: Tool)
    requires k < |lines| && Buffering(p, lines, k, t, written, buffer, tool) && Waiting(p, lines, k)
    ensures (buffer + [lines[k]])[..|buffer|] == buffer && buffer + [lines[k]] == lines[t + 1..k + 1]
    ensures p.moveTo(lines[k]).None? ==>
              Waiting(p, lines, k + 1) && Buffering(p, lines, k + 1, t, written, buffer + [lines[k]], tool)
    ensures p.moveTo(lines[k]).Some? ==> !Waiting(p, lines, k + 1)
  {
  }

  lemma StepOpen(p: Patterns, lines: seq<string>, k: nat, written: seq<Item>)
    requires k < |lines| && Opens(p, lines, k) && written == [Fingerprint] + Rewritten(p, lines, k)
    ensures Waiting(p, lines, k + 1) && Buffering(p, lines, k + 1, k, written, [], p.toolOf(lines[k]).value)
  {
  }

  lemma StepPlain(p: Patterns, lines: seq<string>, k: nat, written: seq<Item>)
    requires k < |lines| && !Waiting(p, lines, k) && p.toolOf(lines[k]).None?
    requires written == [Fingerprint] + Rewritten(p, lines, k)
    ensures !Waiting(p, lines, k + 1) && written + [Plain(lines[k])] == [Fingerprint] + Rewritten(p, lines, k + 1)
  {
  }

  /** What the pass has done after `k` lines. */
  ghost predicate Passed(p: Patterns, lines: seq<string>, k: nat, t: nat, written: seq<Item>, buffer: seq<string>,
                         tool: Option<Tool>)
    requires k <= |lines|
  {
    && (tool.Some? <==> Waiting(p, lines, k))
    && (tool.None? ==> buffer == [] && written == [Fingerprint] + Rewritten(p, lines, k))
    && (tool.Some? ==> Buffering(p, lines, k, t, written, buffer, tool.value))
  }

  /** One pass that buffers is the specification that looks ahead. */
  method ProcessFile(p: Patterns, infile: seq<string>, expand: string -> string, toolsUsed: string)
    returns (written: seq<Item>)
    ensures
      var lines := Expanded(infile, expand);
      written == [Fingerprint] + Rewritten(p, lines, |lines|) + [Referenced(toolsUsed)]
  {
    ghost var lines := Expanded(infile, expand);
    var buffer: seq<string> := [];
    var tool: Option<Tool> := None;
    written := [Fingerprint];
    ghost var t := 0;
    for k := 0 to |infile|
      invariant Passed(p, lines, k, t, written, buffer, tool)
    {
      var line := expand(infile[k]);
      if tool.Some? {
        written, buffer, tool := FeedBuffer(p, line, written, buffer, tool.value, lines, k, t);
      } else {
        written, tool, t := FeedPlain(p, line, written, lines, k);
      }
    }
    written := WriteRest(p, written, buffer, tool, lines, t);
    written := written + [Referenced(toolsUsed)];
  }

  /** A line behind a tool line: buffered, and written with everything before it when it is the move. */
  method FeedBuffer(p: Patterns, line: string, written: seq<Item>, buffer: seq<string>, tool: Tool,
                    ghost lines: seq<string>, ghost k: nat, ghost t: nat)
    returns (written': seq<Item>, buffer': seq<string>, tool': Option<Tool>)
    requires k < |lines| && line == lines[k] && Passed(p, lines, k, t, written, buffer, Some(tool))
    ensures Passed(p, lines, k + 1, t, written', buffer', tool')
  {
    StepBuffer(p, lines, k, t, written, buffer, tool);
    written', buffer', tool' := written, buffer + [line], Some(tool);
    var move := p.moveTo(line);
    if move.Some? {
      written' := WriteMove(p, written', buffer', tool, move, lines, t, k);
      buffer', tool' := [], None;
    }
  }

  /** Any other line: written as it is, or the start of a tool change. */
  method FeedPlain(p: Patterns, line: string, written: seq<Item>, ghost lines: seq<string>, ghost k: nat)
    returns (written': seq<Item>, tool: Option<Tool>, ghost t: nat)
    requires k < |lines| && line == lines[k] && Passed(p, lines, k, 0, written, [], None)
    ensures Passed(p, lines, k + 1, t, written', [], tool)
  {
    t := k;
    written' := written;
    tool := p.toolOf(line);
    if tool.Some? {
      StepOpen(p, lines, k, written);
    } else {
      StepPlain(p, lines, k, written);
      written' := written + [Plain(line)];
    }
  }

  lemma MoveFound(p: Patterns, lines: seq<string>, t: nat, k: nat)
    requires t < k < |lines| && Opens(p, lines, t) && p.moveTo(lines[k]).Some?
    requires forall i | t < i < k :: p.moveTo(lines[i]).None?
    ensures ItemsFor(p, lines, t)
         == [Change(p.toolOf(lines[t]).value, if p.insertNextPos then p.moveTo(lines[k]) else None)]
  {
    NextMoveIs(p, lines, t + 1, k);
  }

  lemma NothingFound(p: Patterns, lines: seq<string>, t: nat)
    requires t < |lines| && Opens(p, lines, t)
    requires forall i | t < i < |lines| :: p.moveTo(lines[i]).None?
    ensures ItemsFor(p, lines, t) ==
            if t + 1 == |lines| then []
            else [Bare(p.toolOf(lines[t]).value.number), Change(p.toolOf(lines[t]).value, None)]
  {
    NextMoveIs(p, lines, t + 1, |lines|);
  }

  // -------------------------------------------------------------------------------------- what the output holds

  /** What is picked from the first `n` items, in order. */
  function PickedUpTo<T>(pick: Item -> Option<T>, items: seq<Item>, n: nat): seq<T>
    requires n <= |items|
  {
    if n == 0 then []
    else PickedUpTo(pick, items, n - 1)
         + match pick(items[n - 1]) case Some(x) => [x] case None => []
  }

  function Picked<T>(pick: Item -> Option<T>, items: seq<Item>): seq<T> {
    PickedUpTo(pick, items, |items|)
  }

  function LineOf(item: Item): Option<string> {
    if item.Plain? then Some(item.line) else None
  }

  function ChangeOf(item: Item): Option<Item> {
    if item.Change? then Some(item) else None
  }

  /** The lines of the file that are in the output. */
  function Kept(items: seq<Item>): seq<string> {
    Picked(LineOf, items)
  }

  /** The changes that are in the output. */
  function Changes(items: seq<Item>): seq<Item> {
    Picked(ChangeOf, items)
  }

  lemma {:induction false} PickedFirst<T>(pick: Item -> Option<T>, a: seq<Item>, b: seq<Item>, n: nat)
    requires n <= |a|
    ensures PickedUpTo(pick, a + b, n) == PickedUpTo(pick, a, n)
  {
    if n > 0 {
      PickedFirst(pick, a, b, n - 1);
    }
  }

  lemma {:induction false} PickedSecond<T>(pick: Item -> Option<T>, a: seq<Item>, b: seq<Item>, n: nat)
    requires n <= |b|
    ensures PickedUpTo(pick, a + b, |a| + n) == Picked(pick, a) + PickedUpTo(pick, b, n)
  {
    if n == 0 {
      PickedFirst(pick, a, b, |a|);
    } else {
      PickedSecond(pick, a, b, n - 1);
      assert (a + b)[|a| + n - 1] == b[n - 1];
    }
  }

  lemma PickedAppend<T>(pick: Item -> Option<T>, a: seq<Item>, b: seq<Item>)
    ensures Picked(pick, a + b) == Picked(pick, a) + Picked(pick, b)
  {
    PickedSecond(pick, a, b, |b|);
  }

  /** The first `n` groups, one after the other. */
  function Collected<T>(groups: nat -> seq<T>, n: nat): seq<T> {
    if n == 0 then [] else Collected(groups, n - 1) + groups(n - 1)
  }

  /** Picking from what was collected is collecting what is picked. */
  lemma {:induction false} PickedCollected<T>(pick: Item -> Option<T>, items: nat -> seq<Item>, picked: nat -> seq<T>,
                                              n: nat)
    requires forall k | 0 <= k < n :: Picked(pick, items(k)) == picked(k)
    ensures Picked(pick, Collected(items, n)) == Collected(picked, n)
  {
    if n > 0 {
      PickedCollected(pick, items, picked, n - 1);
      PickedAppend(pick, Collected(items, n - 1), items(n - 1));
    }
  }

  function LineKept(p: Patterns, lines: seq<string>, k: nat): seq<string>
    requires k < |lines|
  {
    if Opens(p, lines, k) then [] else [lines[k]]
  }

  function ChangeDue(p: Patterns, lines: seq<string>, k: nat): seq<Item>
    requires k < |lines|
  {
    if Opens(p, lines, k) && k + 1 < |lines|
    then [Change(p.toolOf(lines[k]).value, if p.insertNextPos then NextMove(p, lines, k + 1) else None)]
    else []
  }

  /** The lines other than those that start a tool change. */
  function OtherLines(p: Patterns, lines: seq<string>, n: nat): seq<string>
    requires n <= |lines|
  {
    if n == 0 then [] else OtherLines(p, lines, n - 1) + LineKept(p, lines, n - 1)
  }

  /** One change for each tool line that starts one and has a line behind it, with the position of the first move after
      it if there is one and positions are wanted. */
  function ChangesDue(p: Patterns, lines: seq<string>, n: nat): seq<Item>
    requires n <= |lines|
  {
    if n == 0 then [] else ChangesDue(p, lines, n - 1) + ChangeDue(p, lines, n - 1)
  }

  lemma KeptOfNone()
    ensures Kept([]) == [] && Changes([]) == []
  {
  }

  lemma KeptSingle(item: Item)
    ensures Kept([item]) == if item.Plain? then [item.line] else []
    ensures Changes([item]) == if item.Change? then [item] else []
  {
    assert PickedUpTo(LineOf, [item], 0) == [] && PickedUpTo(ChangeOf, [item], 0) == [];
  }

  lemma KeptOfTwo(number: string, tool: Tool)
    ensures Kept([Bare(number), Change(tool, None)]) == []
    ensures Changes([Bare(number), Change(tool, None)]) == [Change(tool, None)]
  {
    KeptSingle(Bare(number));
    KeptSingle(Change(tool, None));
    PickedAppend(LineOf, [Bare(number)], [Change(tool, None)]);
    PickedAppend(ChangeOf, [Bare(number)], [Change(tool, None)]);
    assert [Bare(number)] + [Change(tool, None)] == [Bare(number), Change(tool, None)];
  }

  lemma KeptOfLine(p: Patterns, lines: seq<string>, k: nat)
    requires k < |lines|
    ensures Kept(ItemsFor(p, lines, k)) == LineKept(p, lines, k)
    ensures Changes(ItemsFor(p, lines, k)) == ChangeDue(p, lines, k)
  {
    if !Opens(p, lines, k) {
      KeptSingle(Plain(lines[k]));
    } else if k + 1 == |lines| {
      KeptOfNone();
    } else {
      var tool, next := p.toolOf(lines[k]).value, NextMove(p, lines, k + 1);
      if next.None? {
        KeptOfTwo(tool.number, tool);
      } else {
        KeptSingle(Change(tool, if p.insertNextPos then next else None));
      }
    }
  }

  /** Dropping what was generated leaves the lines that do not start a tool change, in order; the changes generated are
      the ones due, in order. */
  lemma OutputHolds(p: Patterns, lines: seq<string>, n: nat)
    requires n <= |lines|
    ensures Kept(Rewritten(p, lines, n)) == OtherLines(p, lines, n)
    ensures Changes(Rewritten(p, lines, n)) == ChangesDue(p, lines, n)
  {
    var items := (k: nat) => if k < |lines| then ItemsFor(p, lines, k) else [];
    var kept := (k: nat) => if k < |lines| then LineKept(p, lines, k) else [];
    var due := (k: nat) => if k < |lines| then ChangeDue(p, lines, k) else [];
    forall k | 0 <= k < n ensures Kept(items(k)) == kept(k) && Changes(items(k)) == due(k) {
      KeptOfLine(p, lines, k);
    }
    PickedCollected(LineOf, items, kept, n);
    PickedCollected(ChangeOf, items, due, n);
    ByLine(p, lines, items, kept, due, n);
  }

  lemma {:induction false} ByLine(p: Patterns, lines: seq<string>, items: nat -> seq<Item>, kept: nat -> seq<string>,
                                  due: nat -> seq<Item>, n: nat)
    requires n <= |lines|
    requires forall k | 0 <= k < n ::
               items(k) == ItemsFor(p, lines, k) && kept(k) == LineKept(p, lines, k) && due(k) == ChangeDue(p, lines, k)
    ensures Rewritten(p, lines, n) == Collected(items, n)
    ensures OtherLines(p, lines, n) == Collected(kept, n)
    ensures ChangesDue(p, lines, n) == Collected(due, n)
  {
    if n > 0 {
      ByLine(p, lines, items, kept, due, n - 1);
    }
  }

  /** A change stands right after everything written for the lines before its tool line and, with every line behind the
      tool line up to the move, before them. */
  lemma {:induction false} ChangeComesFirst(p: Patterns, lines: seq<string>, t: nat, n: nat)
    requires t < n <= |lines| && Opens(p, lines, t)
    requires forall i | t < i < n - 1 :: p.moveTo(lines[i]).None?
    ensures forall i | t < i < n :: Waiting(p, lines, i)
    ensures Rewritten(p, lines, n) == Rewritten(p, lines, t) + ItemsFor(p, lines, t) + PlainLines(lines[t + 1..n])
  {
    WaitsBehind(p, lines, t, n);
    RewrittenChange(p, lines, t, n);
  }

  lemma {:induction false} WaitsBehind(p: Patterns, lines: seq<string>, t: nat, n: nat)
    requires t < n <= |lines| && Opens(p, lines, t)
    requires forall i | t < i < n - 1 :: p.moveTo(lines[i]).None?
    ensures forall i | t < i < n :: Waiting(p, lines, i)
  {
    if n > t + 2 {
      WaitsBehind(p, lines, t, n - 1);
    }
  }

  // ------------------------------------------------------------------------------------- a tool line at the end

  lemma {:induction false} WaitingPrefix(p: Patterns, lines: seq<string>, more: seq<string>, k: nat)
    requires k <= |lines|
    ensures Waiting(p, lines + more, k) == Waiting(p, lines, k)
  {
    if k > 0 {
      WaitingPrefix(p, lines, more, k - 1);
    }
  }

  /** If nothing waits at the end, what was written so far does not depend on what follows. */
  lemma {:induction false} RewrittenPrefix(p: Patterns, lines: seq<string>, more: seq<string>, n: nat)
    requires n <= |lines| && !Waiting(p, lines, |lines|)
    ensures Rewritten(p, lines + more, n) == Rewritten(p, lines, n)
  {
    if n > 0 {
      RewrittenPrefix(p, lines, more, n - 1);
      var k := n - 1;
      WaitingPrefix(p, lines, more, k);
      if Opens(p, lines, k) {
        if forall i | k < i < |lines| :: p.moveTo(lines[i]).None? {
          WaitsToTheEnd(p, lines, k);
        } else {
          NextMovePrefix(p, lines, more, k + 1);
        }
      }
    }
  }

  lemma {:induction false} WaitsToTheEnd(p: Patterns, lines: seq<string>, t: nat)
    requires t < |lines| && Opens(p, lines, t)
    requires forall i | t < i < |lines| :: p.moveTo(lines[i]).None?
    ensures Waiting(p, lines, |lines|)
  {
    if t + 1 < |lines| {
      WaitsBehind(p, lines, t, |lines|);
    }
  }

  lemma {:induction false} NextMovePrefix(p: Patterns, lines: seq<string>, more: seq<string>, k: nat)
    requires k <= |lines| && exists i | k <= i < |lines| :: p.moveTo(lines[i]).Some?
    ensures NextMove(p, lines + more, k) == NextMove(p, lines, k)
    decreases |lines| - k
  {
    if p.moveTo(lines[k]).None? {
      NextMovePrefix(p, lines, more, k + 1);
    }
  }

  /** A tool line that ends the file without a line behind it is lost: the output is that of the file without it. */
  lemma LastToolLost(p: Patterns, lines: seq<string>, last: string)
    requires p.toolOf(last).Some?
    ensures !Waiting(p, lines, |lines|) ==>
              Rewritten(p, lines + [last], |lines| + 1) == Rewritten(p, lines, |lines|)
    ensures Waiting(p, lines, |lines|) ==> Opens(p, lines + [last], |lines|) == false
  {
    WaitingPrefix(p, lines, [last], |lines|);
    if !Waiting(p, lines, |lines|) {
      RewrittenPrefix(p, lines, [last], |lines|);
    }
  }
}
