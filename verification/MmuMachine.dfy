/** The machine: MMU units side by side, each with its own run of gates, and at most one of them with a bypass. */
module MmuMachine {

  const GATE_UNKNOWN := -1
  const GATE_BYPASS := -2

  datatype Option<T> =
    | None
    | Some(value: T)

  datatype UnitConfig = UnitConfig(name: string, numGates: nat, showBypass: bool, requiresHoming: bool)

  datatype Unit = Unit(config: UnitConfig, index: nat, firstGate: nat)

  datatype Machine = Machine(units: seq<Unit>, unitByGate: seq<nat>, numGates: nat, unitWithBypass: Option<nat>)

  function TotalGates(configs: seq<UnitConfig>): nat {
    if configs == [] then 0 else TotalGates(configs[..|configs| - 1]) + configs[|configs| - 1].numGates
  }

  /** A gate of the unit. */
  predicate OwnsGate(unit: Unit, gate: int) {
    unit.firstGate <= gate < unit.firstGate + unit.config.numGates
  }

  /** Units in order, the gates of each starting where those of the one before end. */
  predicate UnitsLaidOut(m: Machine, configs: seq<UnitConfig>, n: nat)
    requires n <= |configs|
  {
    && |m.units| == n && m.numGates == TotalGates(configs[..n])
    && forall i | 0 <= i < n :: m.units[i] == Unit(configs[i], i, TotalGates(configs[..i]))
  }

  /** Every gate leads to the unit that has it. */
  predicate GatesLaidOut(m: Machine) {
    && |m.unitByGate| == m.numGates
    && forall g | 0 <= g < m.numGates :: m.unitByGate[g] < |m.units| && OwnsGate(m.units[m.unitByGate[g]], g)
  }

  /** The bypass leads to the one unit that shows it. */
  predicate BypassLaidOut(m: Machine, configs: seq<UnitConfig>, n: nat)
    requires n <= |configs|
  {
    match m.unitWithBypass
    case None => forall i | 0 <= i < n :: !configs[i].showBypass
    case Some(b) => b < n && forall i | 0 <= i < n :: configs[i].showBypass <==> i == b
  }

  predicate Laid(m: Machine, configs: seq<UnitConfig>, n: nat)
    requires n <= |configs|
  {
    UnitsLaidOut(m, configs, n) && GatesLaidOut(m) && BypassLaidOut(m, configs, n)
  }

  predicate LaidOut(m: Machine, configs: seq<UnitConfig>) {
    Laid(m, configs, |configs|)
  }

  predicate OneBypass(configs: seq<UnitConfig>) {
    forall i, j | 0 <= i < j < |configs| :: !(configs[i].showBypass && configs[j].showBypass)
  }

  lemma {:induction false} TotalGatesGrow(configs: seq<UnitConfig>, i: nat)
    requires i < |configs|
    ensures TotalGates(configs[..i]) + configs[i].numGates == TotalGates(configs[..i + 1]) <= TotalGates(configs)
    decreases |configs| - i
  {
    assert configs[..i + 1][..i] == configs[..i];
    if i + 1 < |configs| {
      TotalGatesGrow(configs, i + 1);
    } else {
      assert configs[..i + 1] == configs;
    }
  }

  lemma {:induction false} TotalGatesMonotone(configs: seq<UnitConfig>, i: nat, j: nat)
    requires i <= j <= |configs|
    ensures TotalGates(configs[..i]) <= TotalGates(configs[..j])
    decreases j - i
  {
    if i < j {
      TotalGatesGrow(configs, i);
      TotalGatesMonotone(configs, i + 1, j);
    }
  }

  /** Builds the units one by one. Fails when a second unit shows a bypass. */
  method Build(configs: seq<UnitConfig>) returns (r: Option<Machine>)
    ensures r.Some? <==> OneBypass(configs)
    ensures r.Some? ==> LaidOut(r.value, configs)
  {
    var units: seq<Unit> := [];
    var unitByGate: seq<nat> := [];
    var numGates: nat := 0;
    var bypass: Option<nat> := None;
    for i := 0 to |configs|
      invariant Laid(Machine(units, unitByGate, numGates, bypass), configs, i)
    {
      ghost var before := Machine(units, unitByGate, numGates, bypass);
      if configs[i].showBypass && bypass.Some? {
        assert configs[bypass.value].showBypass;
        return None;
      }
      OneMoreUnit(before, configs, i);
      units := units + [Unit(configs[i], i, numGates)];
      unitByGate := unitByGate + seq(configs[i].numGates, _ => i);
      if configs[i].showBypass {
        bypass := Some(i);
      }
      numGates := numGates + configs[i].numGates;
      assert Machine(units, unitByGate, numGates, bypass) == WithUnit(before, configs[i]);
    }
    r := Some(Machine(units, unitByGate, numGates, bypass));
  }

  function WithUnit(m: Machine, config: UnitConfig): Machine {
    Machine(m.units + [Unit(config, |m.units|, m.numGates)],
            m.unitByGate + seq(config.numGates, _ => |m.units|),
            m.numGates + config.numGates,
            if config.showBypass then Some(|m.units|) else m.unitWithBypass)
  }

  lemma OneMoreUnit(m: Machine, configs: seq<UnitConfig>, i: nat)
    requires i < |configs| && Laid(m, configs, i) && !(configs[i].showBypass && m.unitWithBypass.Some?)
    ensures Laid(WithUnit(m, configs[i]), configs, i + 1)
  {
    TotalGatesGrow(configs, i);
    GatesStayLaidOut(m, configs[i]);
  }

  lemma GatesStayLaidOut(m: Machine, config: UnitConfig)
    requires GatesLaidOut(m)
    ensures GatesLaidOut(WithUnit(m, config))
  {
  }

  // ------------------------------------------------------------------------------------------------- lookups

  function UnitByIndex(m: Machine, index: Option<int>): Option<nat> {
    if index.Some? && 0 <= index.value < |m.units| then Some(index.value) else None
  }

  function UnitByGate(m: Machine, gate: int): Option<nat> {
    if 0 <= gate < m.numGates && gate < |m.unitByGate| then Some(m.unitByGate[gate])
    else if gate == GATE_BYPASS then m.unitWithBypass
    else None
  }

  /** The units split the gates among them: a gate belongs to exactly one unit, the one the lookup gives. */
  lemma GatesArePartitioned(m: Machine, configs: seq<UnitConfig>, gate: int, i: nat)
    requires LaidOut(m, configs) && i < |m.units|
    ensures OwnsGate(m.units[i], gate) <==> gate >= 0 && UnitByGate(m, gate) == Some(i)
    ensures UnitByGate(m, gate).Some? <==> 0 <= gate < m.numGates || (gate == GATE_BYPASS && m.unitWithBypass.Some?)
  {
    TotalGatesGrow(configs, i);
    assert configs[..|configs|] == configs;
    if 0 <= gate < m.numGates && m.unitByGate[gate] != i {
      var j := m.unitByGate[gate];
      TotalGatesGrow(configs, j);
      if i < j {
        TotalGatesMonotone(configs, i + 1, j);
      } else {
        TotalGatesMonotone(configs, j + 1, i);
      }
    }
  }
}
