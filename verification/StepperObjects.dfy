/** The stepper objects themselves: linked by name to the stepper they follow and by reference to their followers.
    Every method is proved to do to the objects what the command does to the world they stand for. */
module StepperObjects {
  import opened StepperSync

  class Printer {
    var steppers: map<string, MmuStepper>
    var extruders: map<string, real>

    constructor (extruders: map<string, real>)
      ensures Valid() && steppers == map[] && this.extruders == extruders
    {
      steppers := map[];
      this.extruders := extruders;
    }

    /** Every stepper is registered under its full name, and followers are registered steppers. */
    ghost predicate Valid()
      reads this, steppers.Values
    {
      forall n | n in steppers ::
        steppers[n].fullName == n && steppers[n].printer == this && steppers[n].followers <= steppers.Values
    }

    ghost function View(): World
      reads this, steppers.Values
    {
      World(map n | n in steppers :: steppers[n].View(), extruders)
    }

    /** The motion hardware: whoever executes the moves of the queue ends up at the position. */
    method Drive(queue: Trapq, position: real)
      requires Valid()
      modifies steppers.Values
      ensures Valid() && View() == Driven(old(View()), queue, position)
      ensures forall s | s in steppers.Values :: s.followers == old(s.followers)
    {
      forall s | s in steppers.Values && s.trapq == queue {
        s.stepperPos := position;
      }
    }

    method MoveExtruder(extruder: string, position: real)
      requires Valid()
      modifies this`extruders, steppers.Values
      ensures Valid() && View() == Perform(old(View()), ExtruderMoved(extruder, position))
    {
      if extruder in extruders {
        extruders := extruders[extruder := position];
        Drive(ExtruderOf(extruder), position);
      }
    }
  }

  class MmuStepper {
    const printer: Printer
    const name: string
    const fullName: string
    var manual: bool
    var motionQueue: Option<string>
    var manualQueue: Option<string>
    var followers: set<MmuStepper>
    var trapq: Trapq
    var commandedPos: real
    var stepperPos: real
    var offset: real

    ghost function View(): Stepper
      reads this
    {
      Stepper(name, manual, motionQueue, manualQueue, set f | f in followers :: f.fullName, trapq, commandedPos,
              stepperPos, offset)
    }

    ghost predicate Registered()
      reads this, printer, printer.steppers.Values
    {
      printer.Valid() && fullName in printer.steppers && printer.steppers[fullName] == this
    }

    constructor (printer: Printer, name: string, manual: bool, position: real)
      ensures this.printer == printer && this.name == name && fullName == PREFIX + name
      ensures View() == Stepper(name, manual, None, None, {},
                                if manual then ManualOf(PREFIX + name)
                                else if name in printer.extruders then ExtruderOf(name) else NoTrapq,
                                position, position, 0.0)
    {
      this.printer := printer;
      this.name := name;
      fullName := PREFIX + name;
      this.manual := manual;
      motionQueue := None;
      manualQueue := None;
      followers := {};
      trapq := if manual then ManualOf(PREFIX + name)
               else if name in printer.extruders then ExtruderOf(name) else NoTrapq;
      commandedPos := position;
      stepperPos := position;
      offset := 0.0;
    }

    method GetModePosition() returns (position: real)
      requires Registered()
      ensures position == ModePosition(printer.View(), fullName)
    {
      if manual {
        if manualQueue.Some? && manualQueue.value in printer.steppers {
          return printer.steppers[manualQueue.value].commandedPos;
        }
        return commandedPos;
      }
      position := stepperPos - offset;
    }

    /** Switches to manual kinematics at the current position. */
    method EnterManualMode()
      requires Registered()
      modifies this
      ensures Registered() && followers == old(followers)
      ensures View() == InManualMode(old(View()), fullName)
      ensures printer.View() == old(printer.View()).(steppers := old(printer.View()).steppers[fullName := View()])
    {
      ghost var before := printer.View();
      commandedPos := stepperPos;
      trapq := ManualOf(fullName);
      manual := true;
      motionQueue := None;
      manualQueue := None;
      OneChanged(printer, this, before);
    }

    /** Switches to extruder kinematics without a motion queue. */
    method EnterExtruderMode()
      requires Registered()
      modifies this
      ensures Registered() && followers == old(followers)
      ensures View() == InExtruderMode(old(View()), printer.extruders)
      ensures printer.View() == old(printer.View()).(steppers := old(printer.View()).steppers[fullName := View()])
    {
      ghost var before := printer.View();
      var pos := stepperPos;
      trapq := NoTrapq;
      if name in printer.extruders {
        stepperPos := printer.extruders[name];
        trapq := ExtruderOf(name);
      }
      commandedPos := pos;
      manual := false;
      motionQueue := None;
      manualQueue := None;
      OneChanged(printer, this, before);
    }

    /** Sets the position, and that of the followers of a driving manual stepper. */
    method SetPosition(position: real)
      requires Registered()
      modifies printer.steppers.Values
      ensures Registered()
      ensures printer.View() == DoSetPosition(old(printer.View()), fullName, position)
      ensures forall s | s in printer.steppers.Values :: s.followers == old(s.followers)
    {
      ghost var before := printer.View();
      if manual && manualQueue.None? {
        DriveTo(position);
        AllPlaced(printer, this, before, position);
      } else if !manual {
        commandedPos := position;
        offset := stepperPos - position;
        OneChanged(printer, this, before);
      } else {
        commandedPos := position;
        OneChanged(printer, this, before);
      }
    }

    /** Places the driving stepper and keeps its followers at its position. */
    method DriveTo(position: real)
      requires Registered()
      modifies printer.steppers.Values
      ensures Registered()
      ensures forall n | n in printer.steppers ::
                var before := old(printer.View());
                && printer.steppers[n].View() == (if n in {fullName} + before.steppers[fullName].followers
                                                  then Placed(before.steppers[n], position) else before.steppers[n])
                && printer.steppers[n].followers == old(printer.steppers[n].followers)
    {
      FollowerNames(printer, this);
      PlaceFollowers(position);
    }

    method PlaceFollowers(position: real)
      requires Registered()
      modifies printer.steppers.Values
      ensures Registered()
      ensures forall s | s in printer.steppers.Values ::
                && s.View() == (if s == this || s in old(followers) then Placed(old(s.View()), position)
                                else old(s.View()))
                && s.followers == old(s.followers)
    {
      ghost var mine := followers;
      commandedPos := position;
      stepperPos := position;
      var todo := followers;
      while todo != {}
        invariant todo <= followers == mine <= printer.steppers.Values
        invariant forall s | s in printer.steppers.Values ::
                    && s.View() == (if s == this || s in mine - todo then Placed(old(s.View()), position)
                                    else old(s.View()))
                    && s.followers == old(s.followers)
        decreases todo
      {
        var f :| f in todo;
        f.commandedPos := position;
        f.stepperPos := position;
        todo := todo - {f};
      }
    }

    /** Whether a command came out as the world says: its result, or an error and no change. */
    ghost predicate Did(c: Command, before: World, ok: bool)
      requires Registered() && fullName in before.steppers
      reads this, printer, printer.steppers.Values
    {
      match Step(before, fullName, c)
      case Some(w) => ok && printer.View() == w
      case None => !ok && printer.View() == before
    }

    method AddManualFollower(follower: MmuStepper)
      requires Registered() && follower.Registered() && follower.printer == printer
      modifies this
      ensures Registered() && follower.Registered()
      ensures followers == old(followers) + {follower}
      ensures printer.View() == old(printer.View()).(steppers := old(printer.View()).steppers[fullName :=
                old(View()).(followers := old(View()).followers + {follower.fullName})])
    {
      ghost var before := printer.View();
      followers := followers + {follower};
      assert View().followers == before.steppers[fullName].followers + {follower.fullName};
      OneChanged(printer, this, before);
    }

    method RemoveManualFollower(follower: MmuStepper)
      requires Registered() && follower.Registered() && follower.printer == printer
      modifies this
      ensures Registered() && follower.Registered()
      ensures followers == old(followers) - {follower}
      ensures printer.View() == old(printer.View()).(steppers := old(printer.View()).steppers[fullName :=
                old(View()).(followers := old(View()).followers - {follower.fullName})])
    {
      ghost var before := printer.View();
      FollowerNames(printer, this);
      followers := followers - {follower};
      FollowerNames(printer, this);
      assert View().followers == before.steppers[fullName].followers - {follower.fullName};
      OneChanged(printer, this, before);
    }

    /** Takes this stepper out of the followers of the one it is synced to. */
    method Unregister()
      requires Registered()
      modifies printer.steppers.Values
      ensures Registered()
      ensures printer.View() == Unregistered(old(printer.View()), fullName)
    {
      if manualQueue.Some? && manualQueue.value in printer.steppers {
        var source := printer.steppers[manualQueue.value];
        source.RemoveManualFollower(this);
      }
    }

    method UnsyncManual() returns (ok: bool)
      requires Registered()
      modifies printer.steppers.Values
      ensures Registered() && Did(Command.UnsyncManual, old(printer.View()), ok)
    {
      if !manual {
        return false;
      }
      Unregister();
      var position := GetModePosition();
      EnterManualMode();
      SetPosition(position);
      ok := true;
    }

    method UnsyncExtruder() returns (ok: bool)
      requires Registered()
      modifies printer.steppers.Values
      ensures Registered() && Did(Command.UnsyncExtruder, old(printer.View()), ok)
    {
      if manual {
        return false;
      }
      EnterExtruderMode();
      ok := true;
    }

    method ActivateManual() returns (ok: bool)
      requires Registered()
      modifies printer.steppers.Values
      ensures Registered() && Did(Command.ActivateManual, old(printer.View()), ok)
    {
      if (!manual && motionQueue.Some?) || (manual && manualQueue.Some?) {
        return false;
      }
      EnterManualMode();
      ok := true;
    }

    method ActivateExtruder() returns (ok: bool)
      requires Registered()
      modifies printer.steppers.Values
      ensures Registered() && Did(Command.ActivateExtruder, old(printer.View()), ok)
    {
      if (!manual && motionQueue.Some?) || (manual && manualQueue.Some?) {
        return false;
      }
      EnterExtruderMode();
      ok := true;
    }

    method SwitchToManual()
      requires Registered()
      modifies printer.steppers.Values
      ensures Registered() && Did(Command.SwitchToManual, old(printer.View()), true)
    {
      if !manual {
        LeaveExtruder();
      } else if manualQueue.Some? {
        var _ := UnsyncManual();
      }
    }

    /** From extruder mode: off the extruder first, if it is synced to one. */
    method LeaveExtruder()
      requires Registered() && !manual
      modifies this
      ensures Registered()
      ensures
        var s := old(View());
        var t := if s.motionQueue.Some? then InExtruderMode(s, printer.extruders) else s;
        var before := old(printer.View());
        printer.View() == before.(steppers := before.steppers[fullName := InManualMode(t, fullName)])
    {
      if motionQueue.Some? {
        EnterExtruderMode();
      }
      EnterManualMode();
    }

    method SwitchToExtruder()
      requires Registered()
      modifies printer.steppers.Values
      ensures Registered() && Did(Command.SwitchToExtruder, old(printer.View()), true)
    {
      if manual {
        if manualQueue.Some? {
          var _ := UnsyncManual();
        }
        EnterExtruderMode();
      }
    }

    method SyncToExtruder(extruder: string) returns (ok: bool)
      requires Registered()
      modifies printer.steppers.Values
      ensures Registered() && Did(Command.SyncToExtruder(extruder), old(printer.View()), ok)
    {
      ghost var before := printer.View();
      if extruder !in printer.extruders || manual || motionQueue.Some? {
        return false;
      }
      stepperPos := printer.extruders[extruder];
      trapq := ExtruderOf(extruder);
      commandedPos := printer.extruders[extruder];
      motionQueue := Some(extruder);
      manualQueue := None;
      OneChanged(printer, this, before);
      ok := true;
    }

    method SyncToManualStepper(source: string) returns (ok: bool)
      requires Registered()
      modifies printer.steppers.Values
      ensures Registered() && Did(Command.SyncToManual(source), old(printer.View()), ok)
    {
      var full := PREFIX + source;
      if full !in printer.steppers {
        return false;
      }
      var other := printer.steppers[full];
      if other == this {
        ok := UnsyncManual();
        return;
      }
      if !(other.manual && other.manualQueue.None?) || !(manual && manualQueue.None?) {
        return false;
      }
      var position := other.stepperPos;
      other.AddManualFollower(this);
      FollowAt(full, position);
      ok := true;
    }

    /** Takes over the moves of another manual stepper at its position. */
    method FollowAt(source: string, position: real)
      requires Registered()
      modifies this
      ensures Registered() && followers == old(followers)
      ensures View() == FollowingManual(old(View()), source, position)
      ensures printer.View() == old(printer.View()).(steppers := old(printer.View()).steppers[fullName := View()])
    {
      ghost var before := printer.View();
      stepperPos := position;
      trapq := ManualOf(source);
      commandedPos := position;
      manual := true;
      motionQueue := None;
      manualQueue := Some(source);
      OneChanged(printer, this, before);
    }

    method Move(position: real) returns (ok: bool)
      requires Registered()
      modifies printer.steppers.Values
      ensures Registered() && Did(Command.Move(position), old(printer.View()), ok)
    {
      ghost var before := printer.View();
      if !(manual && manualQueue.None?) {
        return false;
      }
      commandedPos := position;
      OneChanged(printer, this, before);
      printer.Drive(ManualOf(fullName), position);
      ok := true;
    }
  }

  /** When only one stepper has changed, so has its entry in the world. */
  lemma OneChanged(p: Printer, s: MmuStepper, before: World)
    requires p.Valid() && s.Registered() && s.printer == p
    requires before.extruders == p.extruders && before.steppers.Keys == p.steppers.Keys
    requires forall n | n in p.steppers && n != s.fullName :: p.steppers[n].View() == before.steppers[n]
    ensures p.View() == before.(steppers := before.steppers[s.fullName := s.View()])
  {
  }

  /** When a driving stepper and its followers have been placed, so have their entries. */
  lemma AllPlaced(p: Printer, s: MmuStepper, before: World, position: real)
    requires p.Valid() && s.Registered() && s.printer == p
    requires before.extruders == p.extruders && before.steppers.Keys == p.steppers.Keys
    requires StandaloneManual(before.steppers[s.fullName])
    requires forall n | n in p.steppers ::
               p.steppers[n].View() == if n in {s.fullName} + before.steppers[s.fullName].followers
                                       then Placed(before.steppers[n], position) else before.steppers[n]
    ensures p.View() == DoSetPosition(before, s.fullName, position)
  {
  }

  /** A registered stepper is a follower exactly when its name is among the names of the followers. */
  lemma FollowerNames(p: Printer, s: MmuStepper)
    requires p.Valid() && s.Registered() && s.printer == p
    ensures forall n | n in p.steppers :: n in s.View().followers <==> p.steppers[n] in s.followers
  {
    forall n | n in p.steppers ensures n in s.View().followers <==> p.steppers[n] in s.followers {
      if n in s.View().followers {
        var f :| f in s.followers && f.fullName == n;
        assert f in p.steppers.Values;
      }
    }
  }
}
