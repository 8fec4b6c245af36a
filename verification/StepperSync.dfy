/** Steppers that switch mode and follow each other, as a world of named steppers and the commands on it. */
module StepperSync {

  datatype Option<+T> = None | Some(value: T)

  /** The queue of moves a stepper executes. */
  datatype Trapq =
    | NoTrapq
    | ManualOf(stepper: string)
    | ExtruderOf(extruder: string)

  datatype Stepper = Stepper(
    name: string,
    manual: bool,
    motionQueue: Option<string>,
    manualQueue: Option<string>,
    followers: set<string>,
    trapq: Trapq,
    commandedPos: real,
    stepperPos: real,
    offset: real)

  type Steppers = map<string, Stepper>

  /** Every configured stepper by its full name, and the last position of every extruder. */
  datatype World = World(steppers: Steppers, extruders: map<string, real>)

  datatype Command =
    | ActivateManual
    | ActivateExtruder
    | SwitchToManual
    | SwitchToExtruder
    | UnsyncExtruder
    | UnsyncManual
    | SyncToExtruder(extruder: string)
    | SyncToManual(source: string)
    | SetPosition(position: real)
    | Move(position: real)

  const PREFIX := "mmu_stepper "

  // -------------------------------------------------------------------------------------- one stepper

  predicate Detached(s: Stepper) {
    if s.manual then s.manualQueue.None? else s.motionQueue.None?
  }

  predicate StandaloneManual(s: Stepper) {
    s.manual && s.manualQueue.None?
  }

  function InManualMode(s: Stepper, full: string): Stepper {
    s.(manual := true, motionQueue := None, manualQueue := None, trapq := ManualOf(full),
       commandedPos := s.stepperPos)
  }

  /** Detached extruder mode; an extruder of the stepper's own name keeps driving it. */
  function InExtruderMode(s: Stepper, extruders: map<string, real>): Stepper {
    s.(manual := false, motionQueue := None, manualQueue := None,
       trapq := if s.name in extruders then ExtruderOf(s.name) else NoTrapq,
       commandedPos := s.stepperPos,
       stepperPos := if s.name in extruders then extruders[s.name] else s.stepperPos)
  }

  function OnExtruder(s: Stepper, extruder: string, position: real): Stepper {
    s.(manual := false, motionQueue := Some(extruder), manualQueue := None, trapq := ExtruderOf(extruder),
       commandedPos := position, stepperPos := position)
  }

  function FollowingManual(s: Stepper, source: string, position: real): Stepper {
    s.(manual := true, motionQueue := None, manualQueue := Some(source), trapq := ManualOf(source),
       commandedPos := position, stepperPos := position)
  }

  function Placed(s: Stepper, position: real): Stepper {
    s.(commandedPos := position, stepperPos := position)
  }

  // ------------------------------------------------------------------------------------- the commands

  function ModePosition(w: World, n: string): real
    requires n in w.steppers
  {
    var s := w.steppers[n];
    if s.manual then
      if s.manualQueue.Some? && s.manualQueue.value in w.steppers then w.steppers[s.manualQueue.value].commandedPos
      else s.commandedPos
    else s.stepperPos - s.offset
  }

  function PlaceAll(w: World, names: set<string>, position: real): World {
    w.(steppers := map n | n in w.steppers :: if n in names then Placed(w.steppers[n], position) else w.steppers[n])
  }

  function DoSetPosition(w: World, n: string, position: real): World
    requires n in w.steppers
  {
    var s := w.steppers[n];
    if StandaloneManual(s) then PlaceAll(w, {n} + s.followers, position)
    else if !s.manual then
      w.(steppers := w.steppers[n := s.(commandedPos := position, offset := s.stepperPos - position)])
    else w.(steppers := w.steppers[n := s.(commandedPos := position)])
  }

  /** A move takes along every stepper that executes the moves of the queue. */
  function Driven(w: World, queue: Trapq, position: real): World {
    w.(steppers := map n | n in w.steppers ::
         if w.steppers[n].trapq == queue then w.steppers[n].(stepperPos := position) else w.steppers[n])
  }

  /** Takes `n` out of the followers of the stepper it is synced to. */
  function Unregistered(w: World, n: string): World
    requires n in w.steppers
  {
    var q := w.steppers[n].manualQueue;
    if q.Some? && q.value in w.steppers then
      w.(steppers := w.steppers[q.value := w.steppers[q.value].(followers := w.steppers[q.value].followers - {n})])
    else w
  }

  function Unsynced(w: World, n: string): World
    requires n in w.steppers
  {
    var w1 := Unregistered(w, n);
    var position := ModePosition(w1, n);
    var w2 := w1.(steppers := w1.steppers[n := InManualMode(w1.steppers[n], n)]);
    DoSetPosition(w2, n, position)
  }

  /** The world after a command to stepper `n`; no result stands for a command error. */
  function Step(w: World, n: string, c: Command): Option<World>
    requires n in w.steppers
  {
    var s := w.steppers[n];
    match c
    case ActivateManual =>
      if Detached(s) then Some(w.(steppers := w.steppers[n := InManualMode(s, n)])) else None
    case ActivateExtruder =>
      if Detached(s) then Some(w.(steppers := w.steppers[n := InExtruderMode(s, w.extruders)])) else None
    case SwitchToManual =>
      if !s.manual then
        var t := if s.motionQueue.Some? then InExtruderMode(s, w.extruders) else s;
        Some(w.(steppers := w.steppers[n := InManualMode(t, n)]))
      else if s.manualQueue.Some? then Some(Unsynced(w, n))
      else Some(w)
    case SwitchToExtruder =>
      if s.manual then
        var w1 := if s.manualQueue.Some? then Unsynced(w, n) else w;
        Some(w1.(steppers := w1.steppers[n := InExtruderMode(w1.steppers[n], w.extruders)]))
      else Some(w)
    case UnsyncExtruder =>
      if !s.manual then Some(w.(steppers := w.steppers[n := InExtruderMode(s, w.extruders)])) else None
    case UnsyncManual => if s.manual then Some(Unsynced(w, n)) else None
    case SyncToExtruder(e) =>
      if e in w.extruders && !s.manual && s.motionQueue.None? then
        Some(w.(steppers := w.steppers[n := OnExtruder(s, e, w.extruders[e])]))
      else None
    case SyncToManual(source) =>
      var a := PREFIX + source;
      if a !in w.steppers then None
      else if a == n then (if s.manual then Some(Unsynced(w, n)) else None)
      else if !StandaloneManual(w.steppers[a]) || !StandaloneManual(s) then None
      else
        var position := w.steppers[a].stepperPos;
        Some(w.(steppers := w.steppers[a := w.steppers[a].(followers := w.steppers[a].followers + {n})]
                                      [n := FollowingManual(s, a, position)]))
    case SetPosition(position) => Some(DoSetPosition(w, n, position))
    case Move(position) =>
      if StandaloneManual(s) then
        Some(Driven(w.(steppers := w.steppers[n := s.(commandedPos := position)]), ManualOf(n), position))
      else None
  }

  /** A command for one of the steppers, or an extruder that has moved. */
  datatype Request =
    | Request(stepper: string, command: Command)
    | ExtruderMoved(extruder: string, position: real)

  /** A command that fails changes nothing. */
  function Perform(w: World, r: Request): World {
    match r
    case Request(n, c) =>
      if n in w.steppers then match Step(w, n, c) case Some(w') => w' case None => w
      else w
    case ExtruderMoved(e, position) =>
      if e in w.extruders then Driven(w.(extruders := w.extruders[e := position]), ExtruderOf(e), position) else w
  }

  function Run(w: World, requests: seq<Request>): World
    decreases |requests|
  {
    if requests == [] then w else Run(Perform(w, requests[0]), requests[1..])
  }

  // -------------------------------------------------------------------------------------- the invariant

  /** B is a follower of A exactly when B is in manual mode with A as its manual queue. */
  ghost predicate FollowersAgree(w: World) {
    forall a, b | a in w.steppers && b in w.steppers ::
      b in w.steppers[a].followers <==> w.steppers[b].manual && w.steppers[b].manualQueue == Some(a)
  }

  /** Queues name other configured steppers and belong to the mode the stepper is in. */
  ghost predicate QueuesFit(w: World) {
    forall b | b in w.steppers ::
      var s := w.steppers[b];
      && (s.manualQueue.Some? ==> s.manual && s.manualQueue.value in w.steppers && s.manualQueue.value != b)
      && (s.motionQueue.Some? ==> !s.manual)
      && s.followers <= w.steppers.Keys
  }

  /** The moves a stepper executes are those of its queue. */
  ghost predicate TrapqFits(w: World) {
    forall b | b in w.steppers ::
      var s := w.steppers[b];
      if s.manual then s.trapq == ManualOf(if s.manualQueue.Some? then s.manualQueue.value else b)
      else if s.motionQueue.Some? then s.trapq == ExtruderOf(s.motionQueue.value)
      else s.trapq == if s.name in w.extruders then ExtruderOf(s.name) else NoTrapq
  }

  /** Who follows whom. */
  function Follows(w: World): map<string, string> {
    map b | b in w.steppers && w.steppers[b].manualQueue.Some? :: w.steppers[b].manualQueue.value
  }

  /** Where `k` steps along the edges lead. */
  function Along(edges: map<string, string>, n: string, k: nat): Option<string>
    decreases k
  {
    if k == 0 then Some(n) else if n in edges then Along(edges, edges[n], k - 1) else None
  }

  /** No stepper follows itself, directly or through others. */
  ghost predicate Acyclic(edges: map<string, string>) {
    forall n, k: nat | k > 0 :: Along(edges, n, k) != Some(n)
  }

  ghost predicate Inv(w: World) {
    FollowersAgree(w) && QueuesFit(w) && TrapqFits(w) && Acyclic(Follows(w))
  }

  /** With fewer edges one gets nowhere new. */
  lemma {:induction false} AlongFewer(edges: map<string, string>, fewer: map<string, string>, n: string, k: nat)
    requires forall x | x in fewer :: x in edges && edges[x] == fewer[x]
    requires Along(fewer, n, k).Some?
    ensures Along(edges, n, k) == Along(fewer, n, k)
    decreases k
  {
    if k > 0 {
      AlongFewer(edges, fewer, fewer[n], k - 1);
    }
  }

  lemma FewerAcyclic(edges: map<string, string>, fewer: map<string, string>)
    requires Acyclic(edges)
    requires forall x | x in fewer :: x in edges && edges[x] == fewer[x]
    ensures Acyclic(fewer)
  {
    forall n, k: nat | k > 0 ensures Along(fewer, n, k) != Some(n) {
      if Along(fewer, n, k).Some? {
        AlongFewer(edges, fewer, n, k);
      }
    }
  }

  /** A new edge to a stepper that follows nobody is a dead end. */
  lemma {:induction false} AlongNewLeaf(edges: map<string, string>, from: string, to: string, n: string, k: nat)
    requires from != to && to !in edges
    ensures Along(edges[from := to], n, k).Some? && Along(edges[from := to], n, k) != Some(to) ==>
              n == to || Along(edges, n, k) == Along(edges[from := to], n, k)
    decreases k
  {
    var more := edges[from := to];
    if k > 0 && n in more {
      AlongNewLeaf(edges, from, to, more[n], k - 1);
      assert Along(more, to, k - 1) == if k == 1 then Some(to) else None;
    }
  }

  /** Following a stepper that follows nobody closes no cycle. */
  lemma NewLeafAcyclic(edges: map<string, string>, from: string, to: string)
    requires Acyclic(edges) && from != to && to !in edges
    ensures Acyclic(edges[from := to])
  {
    var more := edges[from := to];
    forall n, k: nat | k > 0 ensures Along(more, n, k) != Some(n) {
      AlongNewLeaf(edges, from, to, n, k);
      assert n == to ==> Along(more, n, k).None?;
    }
  }

  /** A change that leaves names, modes, queues, followers and move queues of every stepper as they are. */
  ghost predicate OnlyPositions(w: World, w': World) {
    && w'.extruders.Keys == w.extruders.Keys && w'.steppers.Keys == w.steppers.Keys
    && forall n | n in w.steppers ::
         var a, b := w.steppers[n], w'.steppers[n];
         a.name == b.name && a.manual == b.manual && a.motionQueue == b.motionQueue && a.manualQueue == b.manualQueue
         && a.followers == b.followers && a.trapq == b.trapq
  }

  lemma PositionsKeepInv(w: World, w': World)
    requires Inv(w) && OnlyPositions(w, w')
    ensures Inv(w')
  {
    assert Follows(w') == Follows(w);
  }

  lemma SetPositionOnly(w: World, n: string, position: real)
    requires n in w.steppers
    ensures OnlyPositions(w, DoSetPosition(w, n, position))
  {
  }

  /** Changing the mode of a stepper that is not synced to a manual one. */
  lemma ModeKeepsInv(w: World, n: string, s: Stepper)
    requires Inv(w) && n in w.steppers && w.steppers[n].manualQueue.None?
    requires s.name == w.steppers[n].name && s.followers == w.steppers[n].followers
    requires s.manualQueue.None? && (s.motionQueue.Some? ==> !s.manual)
    requires if s.manual then s.trapq == ManualOf(n)
             else if s.motionQueue.Some? then s.trapq == ExtruderOf(s.motionQueue.value)
             else s.trapq == if s.name in w.extruders then ExtruderOf(s.name) else NoTrapq
    ensures Inv(w.(steppers := w.steppers[n := s]))
  {
    var w' := w.(steppers := w.steppers[n := s]);
    assert Follows(w') == Follows(w);
    assert FollowersAgree(w');
  }

  /** Between registrations and modes: `n` is nobody's follower any more, standalone, everything else as it was. */
  ghost predicate Released(w: World, n: string, w': World)
    requires n in w.steppers
  {
    && w'.extruders == w.extruders && w'.steppers.Keys == w.steppers.Keys
    && (var a, b := w.steppers[n], w'.steppers[n];
        b.manual && b.manualQueue.None? && b.motionQueue.None? && b.trapq == ManualOf(n)
        && b.name == a.name && b.followers == a.followers - {n})
    && forall m | m in w.steppers && m != n ::
         var a, b := w.steppers[m], w'.steppers[m];
         a.name == b.name && a.manual == b.manual && a.motionQueue == b.motionQueue && a.manualQueue == b.manualQueue
         && a.trapq == b.trapq && b.followers == a.followers - {n}
  }

  lemma ReleasedKeepsInv(w: World, n: string, w': World)
    requires Inv(w) && n in w.steppers && Released(w, n, w')
    ensures Inv(w')
  {
    ReleasedFollowersAgree(w, n, w');
    ReleasedFits(w, n, w');
    FewerAcyclic(Follows(w), Follows(w'));
  }

  lemma ReleasedFollowersAgree(w: World, n: string, w': World)
    requires FollowersAgree(w) && n in w.steppers && Released(w, n, w')
    ensures FollowersAgree(w')
  {
    forall a, b | a in w'.steppers && b in w'.steppers
      ensures b in w'.steppers[a].followers <==> w'.steppers[b].manual && w'.steppers[b].manualQueue == Some(a)
    {
      assert b in w.steppers[a].followers <==> w.steppers[b].manual && w.steppers[b].manualQueue == Some(a);
      assert b == n ==> b !in w'.steppers[a].followers;
    }
  }

  lemma ReleasedFits(w: World, n: string, w': World)
    requires QueuesFit(w) && TrapqFits(w) && n in w.steppers && Released(w, n, w')
    ensures QueuesFit(w') && TrapqFits(w')
  {
    forall b | b in w'.steppers
      ensures var s := w'.steppers[b];
              && (s.manualQueue.Some? ==> s.manual && s.manualQueue.value in w'.steppers && s.manualQueue.value != b)
              && (s.motionQueue.Some? ==> !s.manual) && s.followers <= w'.steppers.Keys
    {
      assert w.steppers[b].followers <= w.steppers.Keys;
    }
  }

  lemma UnregisteredReleases(w: World, n: string)
    requires Inv(w) && n in w.steppers && w.steppers[n].manual
    ensures var w1 := Unregistered(w, n);
            n in w1.steppers && Released(w, n, w1.(steppers := w1.steppers[n := InManualMode(w1.steppers[n], n)]))
  {
    forall m | m in w.steppers ensures n in w.steppers[m].followers <==> w.steppers[n].manualQueue == Some(m) {
    }
  }

  /** Leaving the stepper it was synced to: one edge less on both sides. */
  lemma UnsyncedKeepsInv(w: World, n: string)
    requires Inv(w) && n in w.steppers && w.steppers[n].manual
    ensures Inv(Unsynced(w, n))
    ensures Unsynced(w, n).extruders == w.extruders && n in Unsynced(w, n).steppers
    ensures var s, s' := w.steppers[n], Unsynced(w, n).steppers[n];
            s'.manual && s'.manualQueue.None? && s'.name == s.name
  {
    var w1 := Unregistered(w, n);
    var w2 := w1.(steppers := w1.steppers[n := InManualMode(w1.steppers[n], n)]);
    UnregisteredReleases(w, n);
    ReleasedKeepsInv(w, n, w2);
    SetPositionOnly(w2, n, ModePosition(w1, n));
    PositionsKeepInv(w2, Unsynced(w, n));
  }

  /** Starting to follow a standalone stepper: one edge more, to a stepper without one. */
  lemma SyncKeepsInv(w: World, n: string, a: string)
    requires Inv(w) && n in w.steppers && a in w.steppers && a != n
    requires StandaloneManual(w.steppers[a]) && StandaloneManual(w.steppers[n])
    ensures Inv(w.(steppers := w.steppers[a := w.steppers[a].(followers := w.steppers[a].followers + {n})]
                                         [n := FollowingManual(w.steppers[n], a, w.steppers[a].stepperPos)]))
  {
    var w' := w.(steppers := w.steppers[a := w.steppers[a].(followers := w.steppers[a].followers + {n})]
                                       [n := FollowingManual(w.steppers[n], a, w.steppers[a].stepperPos)]);
    assert Follows(w') == Follows(w)[n := a];
    NewLeafAcyclic(Follows(w), n, a);
  }

  /** Every command keeps the invariant. */
  lemma StepKeepsInv(w: World, n: string, c: Command)
    requires Inv(w) && n in w.steppers && Step(w, n, c).Some?
    ensures Inv(Step(w, n, c).value)
  {
    var s := w.steppers[n];
    match c
    case ActivateManual => ModeKeepsInv(w, n, InManualMode(s, n));
    case ActivateExtruder => ModeKeepsInv(w, n, InExtruderMode(s, w.extruders));
    case SwitchToManual =>
      if !s.manual {
        var t := if s.motionQueue.Some? then InExtruderMode(s, w.extruders) else s;
        ModeKeepsInv(w, n, InManualMode(t, n));
      } else if s.manualQueue.Some? {
        UnsyncedKeepsInv(w, n);
      }
    case SwitchToExtruder =>
      if s.manual {
        if s.manualQueue.Some? {
          UnsyncedKeepsInv(w, n);
        }
        var w1 := if s.manualQueue.Some? then Unsynced(w, n) else w;
        ModeKeepsInv(w1, n, InExtruderMode(w1.steppers[n], w.extruders));
      }
    case UnsyncExtruder => ModeKeepsInv(w, n, InExtruderMode(s, w.extruders));
    case UnsyncManual => UnsyncedKeepsInv(w, n);
    case SyncToExtruder(e) => ModeKeepsInv(w, n, OnExtruder(s, e, w.extruders[e]));
    case SyncToManual(source) =>
      if PREFIX + source == n {
        UnsyncedKeepsInv(w, n);
      } else {
        SyncKeepsInv(w, n, PREFIX + source);
      }
    case SetPosition(position) =>
      SetPositionOnly(w, n, position);
      PositionsKeepInv(w, DoSetPosition(w, n, position));
    case Move(position) =>
      PositionsKeepInv(w, Step(w, n, c).value);
  }

  /** Over any interleaving of commands followers and queues agree and nobody follows itself. */
  lemma {:induction false} RunKeepsInv(w: World, requests: seq<Request>)
    requires Inv(w)
    ensures Inv(Run(w, requests))
    decreases |requests|
  {
    if requests != [] {
      var r := requests[0];
      if r.Request? && r.stepper in w.steppers && Step(w, r.stepper, r.command).Some? {
        StepKeepsInv(w, r.stepper, r.command);
      } else {
        PositionsKeepInv(w, Perform(w, r));
      }
      RunKeepsInv(Perform(w, r), requests[1..]);
    }
  }

  /** Freshly configured steppers: standalone, following nobody. */
  lemma FreshWorldInv(w: World)
    requires forall n | n in w.steppers ::
               var s := w.steppers[n];
               && s.followers == {} && s.manualQueue.None? && s.motionQueue.None?
               && s.trapq == if s.manual then ManualOf(n)
                             else if s.name in w.extruders then ExtruderOf(s.name) else NoTrapq
    ensures Inv(w)
  {
    assert Follows(w) == map[];
    forall n, k: nat | k > 0 ensures Along(Follows(w), n, k) != Some(n) {
    }
  }

  // ------------------------------------------------------------------------------------------ positions

  /** Unsyncing keeps the position: the stepper is where the one it followed was. */
  lemma UnsyncKeepsPosition(w: World, n: string)
    requires Inv(w) && n in w.steppers && w.steppers[n].manual
    ensures ModePosition(Unsynced(w, n), n) == ModePosition(w, n)
    ensures forall f | f in w.steppers[n].followers && f != n ::
              Unsynced(w, n).steppers[f].commandedPos == ModePosition(w, n)
  {
    var q := w.steppers[n].manualQueue;
    if q.Some? {
      assert q.value in w.steppers && q.value != n;
    }
  }

  /** The position that is set is read back, except on a stepper that follows another one which is elsewhere. */
  lemma SetPositionReadsBack(w: World, n: string, position: real)
    requires Inv(w) && n in w.steppers
    ensures var w' := DoSetPosition(w, n, position);
            ModePosition(w', n) == position <==>
              (w.steppers[n].manualQueue.Some? ==> w.steppers[w.steppers[n].manualQueue.value].commandedPos == position)
  {
  }

  /** A move takes the followers along and nobody else; whoever stops following then is where the move ended. */
  lemma MoveCarriesFollowers(w: World, n: string, position: real, m: string)
    requires Inv(w) && n in w.steppers && StandaloneManual(w.steppers[n]) && m in w.steppers
    ensures Step(w, n, Move(position)).Some?
    ensures var w' := Step(w, n, Move(position)).value;
            if m == n || m in w.steppers[n].followers then
              w'.steppers[m].stepperPos == position && ModePosition(w', m) == position
              && ModePosition(Unsynced(w', m), m) == position
            else w'.steppers[m] == w.steppers[m]
  {
    var w' := Step(w, n, Move(position)).value;
    StepKeepsInv(w, n, Move(position));
    assert m in w.steppers[n].followers <==> w.steppers[m].manual && w.steppers[m].manualQueue == Some(n);
    if m == n || m in w.steppers[n].followers {
      UnsyncKeepsPosition(w', m);
    }
  }

  /** A stepper synced to another one reads its position, and switching mode on the way is an error. */
  lemma SyncedReadsSource(w: World, n: string, source: string)
    requires Inv(w) && n in w.steppers && Step(w, n, SyncToManual(source)).Some? && PREFIX + source != n
    ensures var w' := Step(w, n, SyncToManual(source)).value;
            && ModePosition(w', n) == w'.steppers[PREFIX + source].commandedPos
            && Step(w', n, ActivateManual).None? && Step(w', n, ActivateExtruder).None?
            && Step(w', n, SyncToManual(source)).None?
            && n in w'.steppers[PREFIX + source].followers
  {
  }

  /** A stepper that is synced to another one stands where the other's motor stands; the other has one follower more
      and every stepper else is as it was. */
  lemma SyncedStandsAtSource(w: World, n: string, source: string)
    requires n in w.steppers && Step(w, n, SyncToManual(source)).Some? && PREFIX + source != n
    ensures var w' := Step(w, n, SyncToManual(source)).value;
            var a := PREFIX + source;
            && a in w.steppers && w'.steppers.Keys == w.steppers.Keys
            && w'.steppers[n].stepperPos == w.steppers[a].stepperPos
            && w'.steppers[n].commandedPos == w.steppers[a].stepperPos
            && w'.steppers[n].trapq == ManualOf(a)
            && w'.steppers[a] == w.steppers[a].(followers := w.steppers[a].followers + {n})
            && forall x | x in w.steppers && x != n && x != a :: w'.steppers[x] == w.steppers[x]
  {
  }

  /** A stepper that drives itself in manual mode. */
  predicate OnItsOwn(s: Stepper) {
    s.manual && s.manualQueue.None? && s.motionQueue.None?
  }

  /** Where the motor of a stepper is once it is in extruder mode without a queue. */
  function ExtruderPosition(w: World, s: Stepper): real {
    if s.name in w.extruders then w.extruders[s.name] else s.stepperPos
  }

  /** Which mode changes are refused, and what the others lead to: the mode, what drives the stepper, and where it
      stands. */
  lemma ModeAfter(w: World, n: string, c: Command)
    requires Inv(w) && n in w.steppers
    ensures
      var s, r := w.steppers[n], Step(w, n, c);
      match c
      case ActivateManual =>
        && (r.Some? <==> s.manualQueue.None? && s.motionQueue.None?)
        && (r.Some? ==> OnItsOwn(r.value.steppers[n]) && r.value.steppers[n].commandedPos == s.stepperPos)
      case ActivateExtruder =>
        && (r.Some? <==> s.manualQueue.None? && s.motionQueue.None?)
        && (r.Some? ==> InDetachedExtruderMode(r.value.steppers[n], ExtruderPosition(w, s)))
      case SwitchToManual =>
        && r.Some? && OnItsOwn(r.value.steppers[n])
        && ModePosition(r.value, n) == if s.manual then ModePosition(w, n)
                                       else if s.motionQueue.Some? then ExtruderPosition(w, s) else s.stepperPos
      case SwitchToExtruder =>
        && r.Some? && !r.value.steppers[n].manual
        && (s.manual ==> InDetachedExtruderMode(r.value.steppers[n],
              ExtruderPosition(w, s.(stepperPos := if s.manualQueue.Some? then ModePosition(w, n) else s.stepperPos))))
        && (!s.manual ==> r.value == w)
      case UnsyncExtruder =>
        && (r.Some? <==> !s.manual)
        && (r.Some? ==> InDetachedExtruderMode(r.value.steppers[n], ExtruderPosition(w, s)))
      case UnsyncManual =>
        && (r.Some? <==> s.manual)
        && (r.Some? ==> OnItsOwn(r.value.steppers[n]) && ModePosition(r.value, n) == ModePosition(w, n))
      case SyncToExtruder(e) =>
        && (r.Some? <==> e in w.extruders && !s.manual && s.motionQueue.None?)
        && (r.Some? ==> var t := r.value.steppers[n];
              t.motionQueue == Some(e) && !t.manual && t.stepperPos == t.commandedPos == w.extruders[e])
      case _ => true
  {
    if c.SwitchToManual? || c.SwitchToExtruder? || c.UnsyncManual? {
      if w.steppers[n].manual {
        UnsyncKeepsPosition(w, n);
      }
    }
  }

  predicate InDetachedExtruderMode(s: Stepper, position: real) {
    !s.manual && s.motionQueue.None? && s.stepperPos == position
  }
}
