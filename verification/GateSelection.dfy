/** Gate and unit selection: homing, the unit that commands are routed to, and the unit that FlowGuard watches.
    Selector hardware may fail at any call. */
module GateSelection {
  import opened MmuMachine

  const FILAMENT_POS_UNKNOWN := -1
  const FILAMENT_POS_UNLOADED := 0

  /** What a selector call comes to: whether it succeeds and whether the selector counts as homed after it. */
  datatype Outcome = Outcome(ok: bool, homed: bool)

  /** What is asked of the selector of a unit. */
  datatype Call =
    | ToHome(unit: nat)
    | ToSelect(unit: nat, gate: int)

  /** A call of a selector's homing: the unit, the gate and unit that were selected, and where the filament was. */
  datatype Homing = Homing(unit: nat, gate: int, selected: Option<nat>, filamentPos: int)

  datatype State = State(
    gate: int,
    unit: Option<nat>,
    nextGate: Option<int>,
    monitoring: bool,
    armed: set<nat>,
    homed: set<nat>,
    filamentPos: int,
    log: seq<Call>,
    homings: seq<Homing>)

  datatype Result = Result(state: State, ok: bool)

  /** The machine and what its selectors will answer, call by call. */
  datatype World = World(machine: Machine, outcome: nat -> Outcome)

  // ------------------------------------------------------------------------------------------------ routing

  /** The unit that a gate is routed to: its owner, else the selected unit, else the first. */
  function Routed(m: Machine, s: State, gate: int): nat {
    var byGate := UnitByGate(m, gate);
    if byGate.Some? then byGate.value
    else if s.unit.Some? && s.unit.value < |m.units| then s.unit.value
    else 0
  }

  /** FlowGuard on the routed unit if monitoring is on, on no other. */
  function Scoped(m: Machine, s: State): State {
    s.(armed := if s.monitoring then {Routed(m, s, s.gate)} else {})
  }

  function SetUnit(m: Machine, s: State, unit: nat): State {
    if s.unit == Some(unit) then s else Scoped(m, s.(unit := Some(unit)))
  }

  function SetGate(m: Machine, s: State, gate: int): State {
    if gate == s.gate then s
    else
      var moved := s.(gate := gate);
      SetUnit(m, moved, Routed(m, moved, gate))
  }

  // ---------------------------------------------------------------------------------------------- selectors

  function Called(w: World, s: State, call: Call): Result {
    var o := w.outcome(|s.log|);
    Result(s.(log := s.log + [call], homed := if o.homed then s.homed + {call.unit} else s.homed - {call.unit}), o.ok)
  }

  predicate OwnsSelection(m: Machine, s: State, unit: nat, gate: int) {
    (unit < |m.units| && OwnsGate(m.units[unit], gate)) || (gate == GATE_BYPASS && Routed(m, s, gate) == unit)
  }

  predicate MayHaveFilament(m: Machine, s: State, unit: nat) {
    && s.filamentPos != FILAMENT_POS_UNLOADED
    && (s.gate == GATE_UNKNOWN || OwnsSelection(m, s, unit, s.gate))
  }

  function HomeUnit(w: World, s: State, unit: nat, reselect: bool): Result
    decreases if reselect then 2 else 0
  {
    if unit >= |w.machine.units| || !w.machine.units[unit].config.requiresHoming then Result(s, true)
    else if MayHaveFilament(w.machine, s, unit) then Result(s, false)
    else
      var prev := s.gate;
      var scoped := OwnsSelection(w.machine, s, unit, prev) || prev == GATE_UNKNOWN;
      var cleared := if scoped then SetGate(w.machine, s, GATE_UNKNOWN) else s;
      var home := Called(w, cleared.(homings := s.homings + [Homing(unit, prev, s.unit, s.filamentPos)]), ToHome(unit));
      if !home.ok then Result(if scoped then SetGate(w.machine, home.state, GATE_UNKNOWN) else home.state, false)
      else if scoped && reselect then
        var back := SelectGate(w, home.state, if prev != GATE_UNKNOWN then prev else w.machine.units[unit].firstGate);
        if back.ok then back else Result(SetGate(w.machine, back.state, GATE_UNKNOWN), false)
      else home
  }

  function Unselect(w: World, s: State): Result {
    var call := Called(w, s, ToSelect(Routed(w.machine, s, s.gate), GATE_UNKNOWN));
    if call.ok then Result(SetGate(w.machine, call.state, GATE_UNKNOWN), true) else call
  }

  function SelectGate(w: World, s: State, gate: int): Result
    decreases 1
  {
    var unit := Routed(w.machine, s, gate);
    var home := if gate != s.gate && unit !in s.homed then HomeUnit(w, s, unit, false) else Result(s, true);
    if !home.ok then home else Selected(w, home.state, unit, gate)
  }

  /** The part of a selection that clears the gate when it fails. */
  function Selected(w: World, s: State, unit: nat, gate: int): Result {
    var same := gate == s.gate;
    var call := Called(w, if same then s else s.(nextGate := Some(gate)), ToSelect(unit, gate));
    var done := if !call.ok then Result(Unselect(w, call.state).state, false)
                else if same then call
                else Result(SetGate(w.machine, call.state, gate), true);
    done.(state := done.state.(nextGate := None))
  }

  // --------------------------------------------------------------------------------------------- monitoring

  function Enabled(m: Machine, s: State): State {
    Scoped(m, s.(monitoring := true))
  }

  function Disabled(m: Machine, s: State): State {
    Scoped(m, s.(monitoring := false))
  }

  /** A block suspends monitoring for what it encloses. */
  datatype Action =
    | Select(gate: int)
    | Deselect
    | Home(unit: nat, reselect: bool)
    | Enable
    | Disable
    | MoveFilament(pos: int)
    | Reset
    | Reenable(gate: int, pos: int)
    | Suspend(body: seq<Action>)

  /** What a reset forgets. FlowGuard is left as it is. */
  function Reinitialised(s: State): State {
    s.(gate := GATE_UNKNOWN, unit := None, nextGate := None, monitoring := false, filamentPos := FILAMENT_POS_UNKNOWN)
  }

  /** The saved gate is selected, and the first unit if that selects none. */
  function Restored(m: Machine, s: State, gate: int): State {
    var selected := SetGate(m, s, gate);
    if selected.unit.None? then SetUnit(m, selected, 0) else selected
  }

  function Perform(w: World, s: State, action: Action): State
    decreases action
  {
    match action
    case Select(gate) => SelectGate(w, s, gate).state
    case Deselect => Unselect(w, s).state
    case Home(unit, reselect) => HomeUnit(w, s, unit, reselect).state
    case Enable => Enabled(w.machine, s)
    case Disable => Disabled(w.machine, s)
    case MoveFilament(pos) => s.(filamentPos := pos)
    case Reset => Reinitialised(s)
    case Reenable(gate, pos) =>
      Restored(w.machine, Reinitialised(Disabled(w.machine, s)).(filamentPos := pos), gate)
    case Suspend(body) =>
      var after := PerformAll(w, Disabled(w.machine, s), body);
      if s.monitoring then Enabled(w.machine, after) else after
  }

  function PerformAll(w: World, s: State, actions: seq<Action>): State
    decreases actions
  {
    if actions == [] then s else PerformAll(w, Perform(w, s, actions[0]), actions[1..])
  }

  // ------------------------------------------------------------------------------------- what always holds

  /** The selected unit is the one the selected gate is routed to, or none and the gate is unknown, as a reset leaves
      it; FlowGuard watches the routed unit exactly when monitoring is on; and no selection is under way. */
  predicate Inv(m: Machine, s: State) {
    && (s.unit == Some(Routed(m, s, s.gate)) || (s.unit.None? && s.gate == GATE_UNKNOWN))
    && Routed(m, s, s.gate) < |m.units|
    && s.armed == (if s.monitoring then {Routed(m, s, s.gate)} else {})
    && s.nextGate.None?
  }

  /** A gate of the machine or the bypass, whether or not a unit has one. */
  predicate Exists(m: Machine, gate: int) {
    0 <= gate < m.numGates || gate == GATE_BYPASS
  }

  /** Homing is safe: the filament is unloaded, or it belongs to a known selection and another unit is selected. */
  predicate SafeHoming(m: Machine, h: Homing) {
    && h.unit < |m.units|
    && (h.filamentPos == FILAMENT_POS_UNLOADED
        || (h.gate != GATE_UNKNOWN && !OwnsGate(m.units[h.unit], h.gate)
            && (Exists(m, h.gate) ==> h.selected.Some? && h.selected != Some(h.unit))))
  }

  predicate SafeHomings(m: Machine, s: State) {
    forall i | 0 <= i < |s.homings| :: SafeHoming(m, s.homings[i])
  }

  predicate ValidMachine(m: Machine) {
    && |m.units| > 0 && GatesLaidOut(m)
    && (m.unitWithBypass.Some? ==> m.unitWithBypass.value < |m.units|)
    && forall i | 0 <= i < |m.units| :: 0 <= m.units[i].firstGate <= m.numGates
  }

  /** A machine at start-up, with the gate that was saved last. */
  function Started(m: Machine, gate: int, homed: set<nat>, filamentPos: int): State {
    Restored(m, State(GATE_UNKNOWN, None, None, false, {}, homed, filamentPos, [], []), gate)
  }

  lemma StartedInv(m: Machine, gate: int, homed: set<nat>, filamentPos: int)
    requires ValidMachine(m)
    ensures Inv(m, Started(m, gate, homed, filamentPos)) && SafeHomings(m, Started(m, gate, homed, filamentPos))
    ensures Started(m, gate, homed, filamentPos).unit.Some?
  {
  }

  /** A reset keeps all this exactly when monitoring is off: FlowGuard stays armed where it was. */
  lemma ResetInv(m: Machine, s: State)
    requires ValidMachine(m) && Inv(m, s)
    ensures Inv(m, Reinitialised(s)) <==> !s.monitoring
    ensures Reinitialised(s).armed == s.armed && (SafeHomings(m, s) ==> SafeHomings(m, Reinitialised(s)))
  {
  }

  /** Turning the machine off and on again keeps it always, and some unit is selected then. */
  lemma ReenableInv(w: World, s: State, gate: int, pos: int)
    requires ValidMachine(w.machine) && Inv(w.machine, s)
    ensures
      var after := Perform(w, s, Reenable(gate, pos));
      && Inv(w.machine, after) && after.unit.Some? && after.gate == gate
      && (SafeHomings(w.machine, s) ==> SafeHomings(w.machine, after))
  {
  }

  /** No reset comes while monitoring is on. */
  predicate ResetsQuietly(w: World, s: State, action: Action)
    decreases action
  {
    match action
    case Reset => !s.monitoring
    case Suspend(body) => AllResetQuietly(w, Disabled(w.machine, s), body)
    case _ => true
  }

  predicate AllResetQuietly(w: World, s: State, actions: seq<Action>)
    decreases actions
  {
    actions == []
    || (ResetsQuietly(w, s, actions[0]) && AllResetQuietly(w, Perform(w, s, actions[0]), actions[1..]))
  }

  /** What a selection step leaves alone. */
  predicate Kept(s: State, after: State) {
    && after.filamentPos == s.filamentPos && after.monitoring == s.monitoring && (s.unit.Some? ==> after.unit.Some?)
    && |after.homings| >= |s.homings| && after.homings[..|s.homings|] == s.homings
  }

  lemma SetGateInv(m: Machine, s: State, gate: int)
    requires ValidMachine(m) && Inv(m, s.(nextGate := None))
    ensures Inv(m, SetGate(m, s, gate).(nextGate := None)) && SetGate(m, s, gate).gate == gate
    ensures Kept(s, SetGate(m, s, gate)) && SetGate(m, s, gate).nextGate == s.nextGate
    ensures SetGate(m, s, gate).homings == s.homings
    ensures gate == GATE_UNKNOWN ==> SetGate(m, s, gate).unit == s.unit
  {
  }

  lemma CalledInv(w: World, s: State, call: Call)
    requires Inv(w.machine, s.(nextGate := None))
    ensures Inv(w.machine, Called(w, s, call).state.(nextGate := None))
    ensures Kept(s, Called(w, s, call).state) && Called(w, s, call).state.homings == s.homings
    ensures Called(w, s, call).state.gate == s.gate && Called(w, s, call).state.nextGate == s.nextGate
  {
  }

  lemma UnselectInv(w: World, s: State)
    requires ValidMachine(w.machine) && Inv(w.machine, s.(nextGate := None))
    ensures
      var r := Unselect(w, s);
      && Inv(w.machine, r.state.(nextGate := None)) && Kept(s, r.state) && r.state.homings == s.homings
      && r.state.nextGate == s.nextGate && r.state.gate == if r.ok then GATE_UNKNOWN else s.gate
  {
    var call := ToSelect(Routed(w.machine, s, s.gate), GATE_UNKNOWN);
    CalledInv(w, s, call);
    SetGateInv(w.machine, Called(w, s, call).state, GATE_UNKNOWN);
  }

  /** After any outcome of the selector: no selection under way, and the gate is the target on success and otherwise
      unknown or, if clearing it fails too, the one before. */
  lemma SelectedInv(w: World, s: State, unit: nat, gate: int)
    requires ValidMachine(w.machine) && Inv(w.machine, s)
    ensures
      var r := Selected(w, s, unit, gate);
      && Inv(w.machine, r.state) && Kept(s, r.state) && r.state.homings == s.homings
      && (if r.ok then r.state.gate == gate else r.state.gate == GATE_UNKNOWN || r.state.gate == s.gate)
  {
    var start := if gate == s.gate then s else s.(nextGate := Some(gate));
    CalledInv(w, start, ToSelect(unit, gate));
    var call := Called(w, start, ToSelect(unit, gate));
    if !call.ok {
      UnselectInv(w, call.state);
    } else {
      SetGateInv(w.machine, call.state, gate);
    }
  }

  predicate Settled(w: World, s: State, r: Result) {
    Inv(w.machine, r.state) && Kept(s, r.state) && (SafeHomings(w.machine, s) ==> SafeHomings(w.machine, r.state))
  }

  /** The homing that a refusal guards. */
  lemma HomingIsSafe(w: World, s: State, unit: nat)
    requires ValidMachine(w.machine) && Inv(w.machine, s)
    requires unit < |w.machine.units| && !MayHaveFilament(w.machine, s, unit)
    ensures SafeHoming(w.machine, Homing(unit, s.gate, s.unit, s.filamentPos))
  {
  }

  /** Homing without reselection: a unit that has the selection loses it, another unit homes without touching it. */
  lemma HomeOnlyInv(w: World, s: State, unit: nat)
    requires ValidMachine(w.machine) && Inv(w.machine, s)
    ensures
      var r := HomeUnit(w, s, unit, false);
      && Settled(w, s, r)
      && (r.state.gate == s.gate || r.state.gate == GATE_UNKNOWN)
      && (s.gate != GATE_UNKNOWN && !OwnsSelection(w.machine, s, unit, s.gate) ==>
            r.state.gate == s.gate && r.state.unit == s.unit && r.state.armed == s.armed)
  {
    if unit < |w.machine.units| && w.machine.units[unit].config.requiresHoming && !MayHaveFilament(w.machine, s, unit) {
      var scoped := OwnsSelection(w.machine, s, unit, s.gate) || s.gate == GATE_UNKNOWN;
      SetGateInv(w.machine, s, GATE_UNKNOWN);
      var cleared := if scoped then SetGate(w.machine, s, GATE_UNKNOWN) else s;
      LoggedInv(w, s, cleared, unit);
      var logged := cleared.(homings := s.homings + [Homing(unit, s.gate, s.unit, s.filamentPos)]);
      var call := Called(w, logged, ToHome(unit)).state;
      SetGateInv(w.machine, call, GATE_UNKNOWN);
    }
  }

  /** The call of the selector, once the selection is cleared if it has to be. */
  lemma LoggedInv(w: World, s: State, cleared: State, unit: nat)
    requires ValidMachine(w.machine) && Inv(w.machine, s) && Inv(w.machine, cleared) && Kept(s, cleared)
    requires cleared.homings == s.homings
    requires unit < |w.machine.units| && !MayHaveFilament(w.machine, s, unit)
    ensures
      var logged := cleared.(homings := s.homings + [Homing(unit, s.gate, s.unit, s.filamentPos)]);
      var call := Called(w, logged, ToHome(unit)).state;
      && Settled(w, s, Result(call, true)) && call.gate == cleared.gate && call.unit == cleared.unit
      && call.armed == cleared.armed
  {
    HomingIsSafe(w, s, unit);
    var logged := cleared.(homings := s.homings + [Homing(unit, s.gate, s.unit, s.filamentPos)]);
    CalledInv(w, logged, ToHome(unit));
  }

  /** The gate after a selection is the target if it succeeds; if not, it is unknown or the one before. */
  lemma SelectGateInv(w: World, s: State, gate: int)
    requires ValidMachine(w.machine) && Inv(w.machine, s)
    ensures
      var r := SelectGate(w, s, gate);
      && Settled(w, s, r)
      && (if r.ok then r.state.gate == gate else r.state.gate in {s.gate, GATE_UNKNOWN})
  {
    var unit := Routed(w.machine, s, gate);
    HomeOnlyInv(w, s, unit);
    var home := if gate != s.gate && unit !in s.homed then HomeUnit(w, s, unit, false) else Result(s, true);
    if home.ok {
      SelectedInv(w, home.state, unit, gate);
    }
  }

  /** Homing with reselection restores the selection the unit had, or selects its first gate if none was known. If it
      does not, the gate is unknown or the one before. */
  lemma HomeUnitInv(w: World, s: State, unit: nat)
    requires ValidMachine(w.machine) && Inv(w.machine, s)
    ensures
      var r := HomeUnit(w, s, unit, true);
      && Settled(w, s, r)
      && (r.ok && unit < |w.machine.units| && w.machine.units[unit].config.requiresHoming ==>
            r.state.gate == if s.gate == GATE_UNKNOWN then w.machine.units[unit].firstGate else s.gate)
      && (!r.ok ==> r.state.gate in {s.gate, GATE_UNKNOWN})
  {
    HomeOnlyInv(w, s, unit);
    HomeThenSelect(w, s, unit);
    var home := HomeUnit(w, s, unit, false);
    if home.ok && Reselects(w, s, unit) {
      var target := if s.gate != GATE_UNKNOWN then s.gate else w.machine.units[unit].firstGate;
      SelectGateInv(w, home.state, target);
      SetGateInv(w.machine, SelectGate(w, home.state, target).state, GATE_UNKNOWN);
    }
  }

  /** Homing gets through to the selector and clears the selection first. */
  predicate Reselects(w: World, s: State, unit: nat) {
    && unit < |w.machine.units| && w.machine.units[unit].config.requiresHoming
    && !MayHaveFilament(w.machine, s, unit)
    && (OwnsSelection(w.machine, s, unit, s.gate) || s.gate == GATE_UNKNOWN)
  }

  lemma HomeThenSelect(w: World, s: State, unit: nat)
    ensures
      var home := HomeUnit(w, s, unit, false);
      HomeUnit(w, s, unit, true) ==
        if home.ok && Reselects(w, s, unit) then
          var back := SelectGate(w, home.state,
                                 if s.gate != GATE_UNKNOWN then s.gate else w.machine.units[unit].firstGate);
          if back.ok then back else Result(SetGate(w.machine, back.state, GATE_UNKNOWN), false)
        else home
  {
  }

  lemma SelectedHomesNone(w: World, s: State, unit: nat, gate: int)
    ensures Selected(w, s, unit, gate).state.homings == s.homings
  {
  }

  lemma HomeOnlyHomesOnce(w: World, s: State, unit: nat)
    ensures
      var homings := HomeUnit(w, s, unit, false).state.homings;
      homings == s.homings || homings == s.homings + [Homing(unit, s.gate, s.unit, s.filamentPos)]
  {
  }

  /** A selection homes at most once, and only the selector of the unit it is routed to. */
  lemma SelectHomesOnce(w: World, s: State, gate: int)
    ensures
      var homings := SelectGate(w, s, gate).state.homings;
      || homings == s.homings
      || (gate != s.gate && Routed(w.machine, s, gate) !in s.homed
          && homings == s.homings + [Homing(Routed(w.machine, s, gate), s.gate, s.unit, s.filamentPos)])
  {
    var unit := Routed(w.machine, s, gate);
    HomeOnlyHomesOnce(w, s, unit);
    var home := if gate != s.gate && unit !in s.homed then HomeUnit(w, s, unit, false) else Result(s, true);
    SelectedHomesNone(w, home.state, unit, gate);
  }

  /** No gate is known to be selected, or the one selected is the unit's, or it is the bypass with the unit selected. */
  predicate HoldsSelection(m: Machine, s: State, unit: nat)
    requires unit < |m.units|
  {
    || s.gate == GATE_UNKNOWN
    || m.units[unit].firstGate <= s.gate < m.units[unit].firstGate + m.units[unit].config.numGates
    || (s.gate == GATE_BYPASS && s.unit == Some(unit))
  }

  /** Filament may be in the way of the unit's selector. */
  predicate Blocked(m: Machine, s: State, unit: nat)
    requires unit < |m.units|
  {
    s.filamentPos != FILAMENT_POS_UNLOADED && HoldsSelection(m, s, unit)
  }

  lemma RoutedInRange(m: Machine, s: State, gate: int)
    requires ValidMachine(m)
    ensures Routed(m, s, gate) < |m.units|
  {
  }

  /** Homing alone: refused while filament may be in the way, else one call of the selector, logged as one homing; the
      selection is lost if it was the unit's. */
  lemma HomesOnce(w: World, s: State, unit: nat)
    requires ValidMachine(w.machine) && Inv(w.machine, s) && unit < |w.machine.units|
    requires w.machine.units[unit].config.requiresHoming
    ensures
      var r := HomeUnit(w, s, unit, false);
      if Blocked(w.machine, s, unit) then r == Result(s, false)
      else
        && r.ok == w.outcome(|s.log|).ok && r.state.log == s.log + [ToHome(unit)]
        && r.state.homings == s.homings + [Homing(unit, s.gate, s.unit, s.filamentPos)]
        && r.state.gate == (if HoldsSelection(w.machine, s, unit) then GATE_UNKNOWN else s.gate)
        && Routed(w.machine, r.state, r.state.gate) == Routed(w.machine, s, s.gate)
  {
  }

  /** The selector is asked for the gate; if that fails, the selected unit's is asked for none. */
  lemma SelectsOnce(w: World, s: State, unit: nat, gate: int)
    ensures
      var r := Selected(w, s, unit, gate);
      var last := ToSelect(Routed(w.machine, s, s.gate), GATE_UNKNOWN);
      && r.ok == w.outcome(|s.log|).ok && r.state.homings == s.homings
      && r.state.log == s.log + [ToSelect(unit, gate)] + (if r.ok then [] else [last])
      && (!r.ok ==> r.state.gate == if w.outcome(|s.log| + 1).ok then GATE_UNKNOWN else s.gate)
  {
  }

  /** The selector that a selection of another gate has to be homed for. */
  predicate NeedsHoming(m: Machine, s: State, unit: nat, gate: int)
    requires unit < |m.units|
  {
    gate != s.gate && unit !in s.homed && m.units[unit].config.requiresHoming
  }

  /** What a selection may do: ask the selector for the gate when it is homed or does not need to be, or right after
      a homing that succeeded. While filament may be in the way of an unhomed selector nothing moves and nothing
      changes. */
  predicate AfterHoming(w: World, s: State, gate: int, r: Result)
    requires Routed(w.machine, s, gate) < |w.machine.units|
  {
    var m, unit, at := w.machine, Routed(w.machine, s, gate), |s.log|;
    var homing := Homing(unit, s.gate, s.unit, s.filamentPos);
    var unselect := if r.ok then [] else [ToSelect(Routed(m, s, s.gate), GATE_UNKNOWN)];
    if !NeedsHoming(m, s, unit, gate) then
      && r.ok == w.outcome(at).ok && r.state.homings == s.homings
      && r.state.log == s.log + [ToSelect(unit, gate)] + unselect
    else if Blocked(m, s, unit) then r == Result(s, false)
    else if !w.outcome(at).ok then
      && !r.ok && r.state.homings == s.homings + [homing] && r.state.log == s.log + [ToHome(unit)]
      && r.state.gate == if HoldsSelection(m, s, unit) then GATE_UNKNOWN else s.gate
    else
      && r.ok == w.outcome(at + 1).ok && r.state.homings == s.homings + [homing]
      && r.state.log == s.log + [ToHome(unit), ToSelect(unit, gate)] + unselect
  }

  lemma SelectsAfterHoming(w: World, s: State, gate: int)
    requires ValidMachine(w.machine) && Inv(w.machine, s)
    ensures Routed(w.machine, s, gate) < |w.machine.units|
    ensures AfterHoming(w, s, gate, SelectGate(w, s, gate))
  {
    var unit := Routed(w.machine, s, gate);
    RoutedInRange(w.machine, s, gate);
    if NeedsHoming(w.machine, s, unit, gate) {
      HomesOnce(w, s, unit);
      var home := HomeUnit(w, s, unit, false);
      SelectsOnce(w, home.state, unit, gate);
      assert s.log + [ToHome(unit)] + [ToSelect(unit, gate)] == s.log + [ToHome(unit), ToSelect(unit, gate)];
    } else {
      SelectsOnce(w, s, unit, gate);
    }
  }

  // ---------------------------------------------------------------------------------------------- any run

  /** No reset, inside blocks neither. */
  predicate WithoutReset(action: Action)
    decreases action
  {
    match action
    case Reset => false
    case Suspend(body) => AllWithoutReset(body)
    case _ => true
  }

  predicate AllWithoutReset(actions: seq<Action>)
    decreases actions
  {
    actions == [] || (WithoutReset(actions[0]) && AllWithoutReset(actions[1..]))
  }

  lemma {:induction false} PerformInv(w: World, s: State, action: Action)
    requires ValidMachine(w.machine) && Inv(w.machine, s) && SafeHomings(w.machine, s) && ResetsQuietly(w, s, action)
    ensures Inv(w.machine, Perform(w, s, action)) && SafeHomings(w.machine, Perform(w, s, action))
    ensures s.unit.Some? && WithoutReset(action) ==> Perform(w, s, action).unit.Some?
    decreases action
  {
    match action
    case Select(gate) => SelectGateInv(w, s, gate);
    case Deselect => UnselectInv(w, s);
    case Home(unit, reselect) =>
      if reselect { HomeUnitInv(w, s, unit); } else { HomeOnlyInv(w, s, unit); }
    case Enable =>
    case Disable =>
    case MoveFilament(_) =>
    case Reset => ResetInv(w.machine, s);
    case Reenable(gate, pos) => ReenableInv(w, s, gate, pos);
    case Suspend(body) => RunInv(w, Disabled(w.machine, s), body);
  }

  /** Over any run of selections, homings, monitoring changes, resets while monitoring is off and turning off and on,
      whatever the hardware answers, the selected unit is the routed one (or, after a reset, none while the gate is
      unknown), FlowGuard watches exactly that unit or none, and every homing was safe. */
  lemma {:induction false} RunInv(w: World, s: State, actions: seq<Action>)
    requires ValidMachine(w.machine) && Inv(w.machine, s) && SafeHomings(w.machine, s)
    requires AllResetQuietly(w, s, actions)
    ensures Inv(w.machine, PerformAll(w, s, actions)) && SafeHomings(w.machine, PerformAll(w, s, actions))
    ensures s.unit.Some? && AllWithoutReset(actions) ==> PerformAll(w, s, actions).unit.Some?
    decreases actions
  {
    if actions != [] {
      PerformInv(w, s, actions[0]);
      RunInv(w, Perform(w, s, actions[0]), actions[1..]);
    }
  }

  /** A reset while monitoring is on: FlowGuard goes on watching its unit though monitoring is off. */
  lemma ResetLeavesArmed(w: World, s: State)
    requires ValidMachine(w.machine) && Inv(w.machine, s) && s.monitoring
    ensures
      var after := PerformAll(w, s, [Reset]);
      !after.monitoring && after.armed == {Routed(w.machine, s, s.gate)} && !Inv(w.machine, after)
  {
    assert [Reset][1..] == [];
    assert PerformAll(w, s, [Reset]) == PerformAll(w, Perform(w, s, Reset), []) == Reinitialised(s);
    ResetInv(w.machine, s);
  }

  /** Nothing in the actions turns monitoring on by itself; what is inside a nested block counts too. */
  predicate Quiet(actions: seq<Action>)
    decreases actions
  {
    forall i | 0 <= i < |actions| :: QuietAction(actions[i])
  }

  predicate QuietAction(action: Action)
    decreases action
  {
    match action
    case Enable => false
    case Suspend(body) => Quiet(body)
    case _ => true
  }

  lemma {:induction false} QuietActionStaysOff(w: World, s: State, action: Action)
    requires ValidMachine(w.machine) && Inv(w.machine, s) && SafeHomings(w.machine, s)
    requires QuietAction(action) && !s.monitoring
    ensures ResetsQuietly(w, s, action) && !Perform(w, s, action).monitoring
    decreases action
  {
    match action
    case Select(gate) => SelectGateInv(w, s, gate);
    case Deselect => UnselectInv(w, s);
    case Home(unit, reselect) =>
      if reselect { HomeUnitInv(w, s, unit); } else { HomeOnlyInv(w, s, unit); }
    case Suspend(body) => QuietStaysOff(w, Disabled(w.machine, s), body);
    case Disable =>
    case MoveFilament(_) =>
    case Reset =>
    case Reenable(gate, pos) =>
  }

  lemma {:induction false} QuietStaysOff(w: World, s: State, actions: seq<Action>)
    requires ValidMachine(w.machine) && Inv(w.machine, s) && SafeHomings(w.machine, s)
    requires Quiet(actions) && !s.monitoring
    ensures AllResetQuietly(w, s, actions)
    ensures !PerformAll(w, s, actions).monitoring && PerformAll(w, s, actions).armed == {}
    decreases actions
  {
    if actions != [] {
      assert QuietAction(actions[0]);
      QuietActionStaysOff(w, s, actions[0]);
      PerformInv(w, s, actions[0]);
      QuietStaysOff(w, Perform(w, s, actions[0]), actions[1..]);
    }
  }

  /** A block that suspends monitoring: FlowGuard is off on every unit all through it, however blocks are nested and
      whatever fails, and afterwards monitoring is what it was and FlowGuard is on the unit then selected. */
  lemma SuspendRestores(w: World, s: State, body: seq<Action>, k: nat)
    requires ValidMachine(w.machine) && Inv(w.machine, s) && SafeHomings(w.machine, s)
    requires Quiet(body) && k <= |body|
    ensures PerformAll(w, Disabled(w.machine, s), body[..k]).armed == {}
    ensures
      var after := Perform(w, s, Suspend(body));
      && after.monitoring == s.monitoring && (s.unit.Some? && AllWithoutReset(body) ==> after.unit.Some?)
      && after.armed == if s.monitoring then {Routed(w.machine, after, after.gate)} else {}
  {
    QuietStaysOff(w, Disabled(w.machine, s), body[..k]);
    QuietStaysOff(w, Disabled(w.machine, s), body);
    PerformInv(w, s, Suspend(body));
  }
}
