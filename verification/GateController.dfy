/** The controller that selects gates and units, field by field. Failures that the source raises are results here. */
module GateController {
  import opened MmuMachine
  import opened GateSelection

  class MmuController {
    const world: World
    var gateSelected: int
    var unitSelected: Option<nat>
    var nextGate: Option<int>
    var monitoringEnabled: bool
    var flowguardArmed: set<nat>
    var selectorsHomed: set<nat>
    var filamentPos: int
    var selectorLog: seq<Call>
    ghost var homings: seq<Homing>

    ghost function View(): State
      reads this
    {
      State(gateSelected, unitSelected, nextGate, monitoringEnabled, flowguardArmed, selectorsHomed, filamentPos,
            selectorLog, homings)
    }

    constructor (world: World, gate: int, homed: set<nat>, filamentPos: int)
      requires ValidMachine(world.machine)
      ensures this.world == world && View() == Started(world.machine, gate, homed, filamentPos)
      ensures Inv(world.machine, View())
    {
      this.world := world;
      gateSelected := GATE_UNKNOWN;
      unitSelected, nextGate := None, None;
      monitoringEnabled, flowguardArmed := false, {};
      selectorsHomed := homed;
      this.filamentPos := filamentPos;
      selectorLog := [];
      homings := [];
      new;
      RestoreGate(gate);
      StartedInv(world.machine, gate, homed, filamentPos);
    }

    /** The unit a gate is routed to. */
    method MmuUnit(gate: int) returns (unit: nat)
      ensures unit == Routed(world.machine, View(), gate)
    {
      var found := UnitByGate(world.machine, gate);
      if found.None? {
        found := UnitByIndex(world.machine, if unitSelected.Some? then Some(unitSelected.value) else None);
      }
      unit := if found.Some? then found.value else 0;
    }

    // ------------------------------------------------------------------------------------------ monitoring

    /** Arms FlowGuard on the active unit and disarms it on every other. */
    method ApplyFlowguardScope()
      requires ValidMachine(world.machine) && ArmedKnown()
      modifies this`flowguardArmed
      ensures View() == Scoped(world.machine, old(View()))
    {
      var active := MmuUnit(gateSelected);
      ghost var before := flowguardArmed;
      for i := 0 to |world.machine.units|
        invariant forall u :: u in flowguardArmed <==>
                    if u < i then monitoringEnabled && u == active else u in before
        invariant before == old(flowguardArmed)
      {
        if monitoringEnabled && i == active {
          flowguardArmed := flowguardArmed + {i};
        } else {
          flowguardArmed := flowguardArmed - {i};
        }
      }
      RoutedInRange(world.machine, View(), gateSelected);
      assert flowguardArmed == if monitoringEnabled then {active} else {};
    }

    /** FlowGuard is armed on units of the machine only. */
    ghost predicate ArmedKnown()
      reads this
    {
      forall u | u in flowguardArmed :: u < |world.machine.units|
    }

    method EnableFilamentMonitoring()
      requires ValidMachine(world.machine) && ArmedKnown()
      modifies this`monitoringEnabled, this`flowguardArmed
      ensures View() == Enabled(world.machine, old(View())) && ArmedKnown()
    {
      monitoringEnabled := true;
      ApplyFlowguardScope();
      RoutedInRange(world.machine, View(), gateSelected);
    }

    method DisableFilamentMonitoring() returns (enabled: bool)
      requires ValidMachine(world.machine) && ArmedKnown()
      modifies this`monitoringEnabled, this`flowguardArmed
      ensures View() == Disabled(world.machine, old(View())) && ArmedKnown()
      ensures enabled == old(monitoringEnabled)
    {
      enabled := monitoringEnabled;
      monitoringEnabled := false;
      ApplyFlowguardScope();
    }

    // ------------------------------------------------------------------------------------------- selection

    method SetUnitSelected(unit: nat)
      requires ValidMachine(world.machine) && ArmedKnown()
      modifies this`unitSelected, this`flowguardArmed
      ensures View() == SetUnit(world.machine, old(View()), unit) && ArmedKnown()
    {
      if unitSelected == Some(unit) {
        return;
      }
      unitSelected := Some(unit);
      ApplyFlowguardScope();
      RoutedInRange(world.machine, View(), gateSelected);
    }

    method SetGateSelected(gate: int)
      requires ValidMachine(world.machine) && ArmedKnown()
      modifies this`gateSelected, this`unitSelected, this`flowguardArmed
      ensures View() == SetGate(world.machine, old(View()), gate) && ArmedKnown()
    {
      if gate == gateSelected {
        return;
      }
      gateSelected := gate;
      var unit := MmuUnit(gate);
      SetUnitSelected(unit);
    }

    method CallSelector(call: Call) returns (ok: bool)
      modifies this`selectorLog, this`selectorsHomed
      ensures Result(View(), ok) == Called(world, old(View()), call)
    {
      var o := world.outcome(|selectorLog|);
      selectorLog := selectorLog + [call];
      selectorsHomed := if o.homed then selectorsHomed + {call.unit} else selectorsHomed - {call.unit};
      ok := o.ok;
    }

    method UnitOwnsSelection(unit: nat, gate: int) returns (owns: bool)
      ensures owns <==> OwnsSelection(world.machine, View(), unit, gate)
    {
      if unit < |world.machine.units| && OwnsGate(world.machine.units[unit], gate) {
        return true;
      }
      if gate == GATE_BYPASS {
        var routed := MmuUnit(gate);
        return routed == unit;
      }
      owns := false;
    }

    method UnitMayHaveFilament(unit: nat) returns (may: bool)
      ensures may <==> MayHaveFilament(world.machine, View(), unit)
    {
      if filamentPos == FILAMENT_POS_UNLOADED {
        return false;
      }
      if gateSelected == GATE_UNKNOWN {
        return true;
      }
      may := UnitOwnsSelection(unit, gateSelected);
    }

    method HomeUnit(unit: nat, reselect: bool) returns (ok: bool)
      requires ValidMachine(world.machine) && ArmedKnown()
      modifies this
      ensures Result(View(), ok) == GateSelection.HomeUnit(world, old(View()), unit, reselect)
      ensures ArmedKnown()
      decreases if reselect then 2 else 0
    {
      if unit >= |world.machine.units| || !world.machine.units[unit].config.requiresHoming {
        return true;
      }
      var may := UnitMayHaveFilament(unit);
      if may {
        return false;
      }
      var prev := gateSelected;
      ghost var prevUnit := unitSelected;
      var owns := UnitOwnsSelection(unit, prev);
      var scoped := owns || prev == GATE_UNKNOWN;
      if scoped {
        SetGateSelected(GATE_UNKNOWN);
      }
      homings := homings + [Homing(unit, prev, prevUnit, filamentPos)];
      ok := CallSelector(ToHome(unit));
      if ok && scoped && reselect {
        ok := SelectGate(if prev != GATE_UNKNOWN then prev else world.machine.units[unit].firstGate);
      }
      if !ok && scoped {
        SetGateSelected(GATE_UNKNOWN);
      }
    }

    method SelectGate(gate: int) returns (ok: bool)
      requires ValidMachine(world.machine) && ArmedKnown()
      modifies this
      ensures Result(View(), ok) == GateSelection.SelectGate(world, old(View()), gate)
      ensures ArmedKnown()
      ensures Routed(world.machine, old(View()), gate) < |world.machine.units|
      ensures Inv(world.machine, old(View())) ==> AfterHoming(world, old(View()), gate, Result(View(), ok))
      decreases 1
    {
      RoutedInRange(world.machine, View(), gate);
      if Inv(world.machine, View()) {
        SelectsAfterHoming(world, View(), gate);
      }
      var unit := MmuUnit(gate);
      if gate != gateSelected && unit !in selectorsHomed {
        ok := HomeUnit(unit, false);
        if !ok {
          return;
        }
      }
      ok := SelectOnUnit(unit, gate);
    }

    /** Runs the selector; whatever comes of it, no selection is under way afterwards. */
    method SelectOnUnit(unit: nat, gate: int) returns (ok: bool)
      requires ValidMachine(world.machine) && ArmedKnown()
      modifies this
      ensures Result(View(), ok) == Selected(world, old(View()), unit, gate)
      ensures ArmedKnown()
    {
      if gate == gateSelected {
        ok := CallSelector(ToSelect(unit, gate));
      } else {
        nextGate := Some(gate);
        ok := CallSelector(ToSelect(unit, gate));
        if ok {
          SetGateSelected(gate);
        }
      }
      if !ok {
        var cleared := UnselectGate();
      }
      nextGate := None;
    }

    method UnselectGate() returns (ok: bool)
      requires ValidMachine(world.machine) && ArmedKnown()
      modifies this`gateSelected, this`unitSelected, this`flowguardArmed, this`selectorLog, this`selectorsHomed
      ensures Result(View(), ok) == Unselect(world, old(View()))
      ensures ArmedKnown()
    {
      var unit := MmuUnit(gateSelected);
      ok := CallSelector(ToSelect(unit, GATE_UNKNOWN));
      if ok {
        SetGateSelected(GATE_UNKNOWN);
      }
    }

    // ----------------------------------------------------------------------------------------------- blocks

    /** Forgets selection and monitoring; FlowGuard is not told. */
    method Reinit()
      modifies this
      ensures View() == Reinitialised(old(View()))
      ensures flowguardArmed == old(flowguardArmed)
    {
      monitoringEnabled := false;
      unitSelected := None;
      gateSelected := GATE_UNKNOWN;
      nextGate := None;
      filamentPos := FILAMENT_POS_UNKNOWN;
    }

    /** Selects the saved gate, and the first unit if no unit is selected then. */
    method RestoreGate(gate: int)
      requires ValidMachine(world.machine) && ArmedKnown()
      modifies this
      ensures View() == Restored(world.machine, old(View()), gate)
      ensures ArmedKnown() && unitSelected.Some?
    {
      SetGateSelected(gate);
      if unitSelected.None? {
        SetUnitSelected(0);
      }
    }

    method Perform(action: Action)
      requires ValidMachine(world.machine) && ArmedKnown()
      modifies this
      ensures View() == GateSelection.Perform(world, old(View()), action)
      ensures ArmedKnown()
      decreases action
    {
      match action
      case Select(gate) => var _ := SelectGate(gate);
      case Deselect => var _ := UnselectGate();
      case Home(unit, reselect) => var _ := HomeUnit(unit, reselect);
      case Enable => EnableFilamentMonitoring();
      case Disable => var _ := DisableFilamentMonitoring();
      case MoveFilament(pos) => filamentPos := pos;
      case Reset => Reinit();
      case Reenable(gate, pos) =>
        var _ := DisableFilamentMonitoring();
        Reinit();
        filamentPos := pos;
        RestoreGate(gate);
      case Suspend(body) =>
        var enabled := DisableFilamentMonitoring();
        PerformAll(body);
        if enabled {
          EnableFilamentMonitoring();
        }
    }

    method PerformAll(actions: seq<Action>)
      requires ValidMachine(world.machine) && ArmedKnown()
      modifies this
      ensures View() == GateSelection.PerformAll(world, old(View()), actions)
      ensures ArmedKnown()
      decreases actions
    {
      if actions == [] {
        return;
      }
      Perform(actions[0]);
      PerformAll(actions[1..]);
    }
  }
}
