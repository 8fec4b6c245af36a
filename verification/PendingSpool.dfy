/** The spool or tag that waits for the next gate to be loaded, its expiry timer and LED phase, and the guard around a
    tag lookup. Each assignment carries a serial number, so that one can say how often it is used. */
module PendingSpool {

  datatype Option<T> =
    | None
    | Some(value: T)

  datatype Support = Off | Readonly | Push | Pull

  /** Parameters; they may differ from one command to the next. */
  datatype Params = Params(timeout: real, support: Support)

  datatype Action =
    | Idle
    | Loading
    | LoadingExtruder
    | Unloading
    | UnloadingExtruder
    | FormingTip
    | Heating
    | Checking
    | Homing
    | Selecting
    | CuttingTip
    | CuttingFilament
    | Purging
    | Preload

  /** Actions that do not move filament, and the preload that consumes the assignment itself. */
  predicate Exempt(action: Action) {
    action in {Idle, Preload, Selecting, Homing, Heating}
  }

  datatype Phase = Waiting | Expiring

  datatype Spool = Spool(id: int, serial: nat)

  datatype Tag = Tag(uid: string, metadata: Option<string>, serial: nat)

  datatype Pending = Pending(spool: Option<Spool>, tag: Option<Tag>)

  const NOTHING := Pending(None, None)

  const LOOKUP_TIMEOUT := 30.0
  const WARN_WINDOW := 5.0

  /** An assignment that was applied. */
  datatype Use = Use(serial: nat, gate: int)

  const BYPASS := -2

  datatype State = State(
    live: Pending,
    held: Pending,
    phase: Option<Phase>,
    timer: Option<real>,
    warn: Option<real>,
    lookup: bool,
    lookupTimer: Option<real>,
    action: Action,
    issued: nat,
    used: seq<Use>)

  // ---------------------------------------------------------------------------------------------- functions

  function LedStarted(s: State, p: Params, now: real): State {
    var warn := if WARN_WINDOW < p.timeout / 2.0 then WARN_WINDOW else p.timeout / 2.0;
    s.(phase := Some(Waiting), warn := if p.timeout > 0.0 then Some(now + (p.timeout - warn)) else None)
  }

  function LedStopped(s: State): State {
    if s.phase.None? then s else s.(phase := None, warn := None)
  }

  function Cleared(s: State): State {
    LedStopped(s.(live := NOTHING, timer := None))
  }

  /** A spool is to be assigned. A tag that waits keeps its identity but no longer its data. */
  function SetPending(s: State, p: Params, now: real, id: int): State {
    var tag := if s.live.tag.Some? then Some(s.live.tag.value.(metadata := None)) else None;
    LedStarted(s.(live := Pending(Some(Spool(id, s.issued)), tag), issued := s.issued + 1,
                  timer := Some(now + p.timeout)), p, now)
  }

  /** The spool is cancelled; a tag goes on waiting, with a fresh timeout. */
  function Cancelled(s: State, p: Params, now: real): State {
    var stopped := LedStopped(s.(live := s.live.(spool := None)));
    stopped.(timer := if s.live.tag.Some? then Some(now + p.timeout) else None)
  }

  function Staged(s: State, p: Params, now: real, uid: string, metadata: Option<string>): State {
    s.(live := s.live.(tag := Some(Tag(uid, metadata, s.issued))), issued := s.issued + 1,
       timer := Some(now + p.timeout))
  }

  function LookupSet(s: State, pending: bool, now: real): State {
    if pending == s.lookup then s
    else s.(lookup := pending, lookupTimer := if pending then Some(now + LOOKUP_TIMEOUT) else None)
  }

  /** What applying an assignment to a gate uses: the spool and with it the tag, or the tag alone. */
  function Uses(p: Params, pending: Pending, gate: int): seq<Use> {
    var tag := if pending.tag.Some? then [Use(pending.tag.value.serial, gate)] else [];
    if pending.spool.Some? && p.support != Pull then [Use(pending.spool.value.serial, gate)] + tag else tag
  }

  /** A bypass has no row in the gate map: the spool alone, or the data of the tag. */
  function BypassUses(p: Params, pending: Pending): seq<Use> {
    if pending.spool.Some? && p.support != Pull then [Use(pending.spool.value.serial, BYPASS)]
    else if pending.tag.Some? && pending.tag.value.metadata.Some? then [Use(pending.tag.value.serial, BYPASS)]
    else []
  }

  datatype Command =
    | NextSpoolId(id: int)
    | SharedRead(uid: string, metadata: Option<string>, sent: bool)
    | Insert(gate: int)
    | BypassLoad
    | Grab
    | ApplyHeld(gate: int)
    | DropHeld
    | SetAction(action: Action)
    | Clear
    | Reinit
    | PendingTimer
    | WarnTimer
    | LookupTimer

  datatype Event = Event(now: real, p: Params, command: Command)

  predicate Due(timer: Option<real>, now: real) {
    timer.Some? && now >= timer.value
  }

  function Step(s: State, e: Event): State {
    var p, now := e.p, e.now;
    match e.command
    case NextSpoolId(id) =>
      LookupSet(if id <= 0 then Cancelled(s, p, now) else if p.support != Pull then SetPending(s, p, now, id) else s,
                false, now)
    case SharedRead(uid, metadata, sent) =>
      var staged := Staged(s, p, now, uid, metadata);
      if p.support != Off && sent then LookupSet(staged, true, now) else staged
    case Insert(gate) => Cleared(s.(used := s.used + Uses(p, s.live, gate)))
    case BypassLoad => Cleared(s.(used := s.used + BypassUses(p, s.live)))
    case Grab => Cleared(s.(held := s.live))
    case ApplyHeld(gate) => Cleared(s.(used := s.used + Uses(p, s.held, gate), held := NOTHING))
    case DropHeld => s.(held := NOTHING)
    case SetAction(action) =>
      if action == s.action then s
      else if Exempt(action) then s.(action := action) else Cleared(s.(action := action))
    case Clear => Cleared(s)
    case Reinit => s.(live := NOTHING, phase := None, lookup := false, action := Idle)
    case PendingTimer => if Due(s.timer, now) then Cleared(s).(timer := None) else s
    case WarnTimer =>
      if !Due(s.warn, now) then s
      else s.(warn := None, phase := if s.phase == Some(Waiting) then Some(Expiring) else s.phase)
    case LookupTimer => if Due(s.lookupTimer, now) then LookupSet(s, false, now).(lookupTimer := None) else s
  }

  function Run(s: State, events: seq<Event>): State
    decreases |events|
  {
    if events == [] then s else Run(Step(s, events[0]), events[1..])
  }

  // ----------------------------------------------------------------------------------------- what always holds

  function Serials(p: Pending): set<nat> {
    (if p.spool.Some? then {p.spool.value.serial} else {}) + (if p.tag.Some? then {p.tag.value.serial} else {})
  }

  predicate Separate(p: Pending) {
    p.spool.Some? && p.tag.Some? ==> p.spool.value.serial != p.tag.value.serial
  }

  predicate UsedOnce(used: seq<Use>) {
    forall i, j | 0 <= i < j < |used| :: used[i].serial != used[j].serial
  }

  predicate Unused(p: Pending, s: State) {
    && (forall n | n in Serials(p) :: n < s.issued)
    && (forall i | 0 <= i < |s.used| :: s.used[i].serial !in Serials(p))
  }

  /** Whatever waits has a running timer; the LED shows a phase exactly when a spool waits; a lookup has a running
      timeout; and what waits or is held has never been used, nor anything twice. */
  predicate Inv(s: State) {
    && (s.live != NOTHING ==> s.timer.Some?)
    && (s.phase.Some? <==> s.live.spool.Some?)
    && (s.live.spool.Some? ==> s.live.spool.value.id > 0)
    && (s.lookup ==> s.lookupTimer.Some?)
    && Serials(s.live) !! Serials(s.held) && Separate(s.live) && Separate(s.held)
    && Unused(s.live, s) && Unused(s.held, s)
    && UsedOnce(s.used) && (forall i | 0 <= i < |s.used| :: s.used[i].serial < s.issued)
  }

  const START := State(NOTHING, NOTHING, None, None, None, false, None, Idle, 0, [])

  lemma UsesOnce(s: State, uses: seq<Use>, p: Pending)
    requires Inv(s) && Separate(p) && Unused(p, s)
    requires |uses| <= 2 && forall i | 0 <= i < |uses| :: uses[i].serial in Serials(p)
    requires |uses| == 2 ==> uses[0].serial != uses[1].serial
    ensures UsedOnce(s.used + uses)
    ensures forall i | 0 <= i < |s.used + uses| ::
              (s.used + uses)[i].serial < s.issued
              && ((s.used + uses)[i].serial in Serials(p) || i < |s.used|)
  {
  }

  lemma UsesShape(p: Params, pending: Pending, gate: int)
    requires Separate(pending)
    ensures |Uses(p, pending, gate)| <= 2 && |BypassUses(p, pending)| <= 1
    ensures forall i | 0 <= i < |Uses(p, pending, gate)| :: Uses(p, pending, gate)[i].serial in Serials(pending)
    ensures forall i | 0 <= i < |BypassUses(p, pending)| :: BypassUses(p, pending)[i].serial in Serials(pending)
    ensures |Uses(p, pending, gate)| == 2 ==> Uses(p, pending, gate)[0].serial != Uses(p, pending, gate)[1].serial
  {
  }

  lemma AddedUses(s: State, p: Params, pending: Pending, gate: int)
    requires Inv(s) && Separate(pending) && Unused(pending, s)
    ensures var used := s.used + Uses(p, pending, gate);
            && UsedOnce(used) && s.used <= used
            && forall i | |s.used| <= i < |used| :: used[i].gate == gate && used[i].serial in Serials(pending)
  {
    UsesShape(p, pending, gate);
    UsesOnce(s, Uses(p, pending, gate), pending);
  }

  /** Using up an assignment and dropping what waits. */
  lemma UsedInv(s: State, uses: seq<Use>, p: Pending, held: Pending)
    requires Inv(s) && Separate(p) && Unused(p, s) && (p == s.live || p == s.held)
    requires held == NOTHING || (held == s.held && p == s.live)
    requires |uses| <= 2 && forall i | 0 <= i < |uses| :: uses[i].serial in Serials(p)
    requires |uses| == 2 ==> uses[0].serial != uses[1].serial
    ensures Inv(Cleared(s.(used := s.used + uses, held := held)))
  {
    UsesOnce(s, uses, p);
  }

  lemma NextSpoolInv(s: State, p: Params, now: real, id: int)
    requires Inv(s)
    ensures Inv(Cancelled(s, p, now))
    ensures id > 0 ==> Inv(SetPending(s, p, now, id))
  {
  }

  lemma LookupInv(s: State, pending: bool, now: real)
    requires Inv(s)
    ensures Inv(LookupSet(s, pending, now))
  {
  }

  lemma StagedInv(s: State, p: Params, now: real, uid: string, metadata: Option<string>)
    requires Inv(s)
    ensures Inv(Staged(s, p, now, uid, metadata))
  {
  }

  lemma ClearedInv(s: State, held: Pending, action: Action)
    requires Inv(s) && (held == s.held || held == s.live || held == NOTHING)
    ensures Inv(Cleared(s.(held := held, action := action)))
  {
  }

  lemma ResultStepInv(s: State, e: Event)
    requires Inv(s) && (e.command.NextSpoolId? || e.command.SharedRead?)
    ensures Inv(Step(s, e))
  {
    match e.command
    case NextSpoolId(id) =>
      NextSpoolInv(s, e.p, e.now, id);
      LookupInv(if id <= 0 then Cancelled(s, e.p, e.now)
                else if e.p.support != Pull then SetPending(s, e.p, e.now, id) else s, false, e.now);
    case SharedRead(uid, metadata, sent) =>
      StagedInv(s, e.p, e.now, uid, metadata);
      LookupInv(Staged(s, e.p, e.now, uid, metadata), true, e.now);
  }

  lemma UseStepInv(s: State, e: Event)
    requires Inv(s) && (e.command.Insert? || e.command.BypassLoad? || e.command.ApplyHeld?)
    ensures Inv(Step(s, e))
  {
    match e.command
    case Insert(gate) =>
      UsesShape(e.p, s.live, gate);
      UsedInv(s, Uses(e.p, s.live, gate), s.live, s.held);
    case BypassLoad =>
      UsesShape(e.p, s.live, BYPASS);
      UsedInv(s, BypassUses(e.p, s.live), s.live, s.held);
    case ApplyHeld(gate) =>
      UsesShape(e.p, s.held, gate);
      UsedInv(s, Uses(e.p, s.held, gate), s.held, NOTHING);
  }

  lemma ClearStepInv(s: State, e: Event)
    requires Inv(s) && (e.command.Grab? || e.command.SetAction? || e.command.Clear? || e.command.PendingTimer?)
    ensures Inv(Step(s, e))
  {
    match e.command
    case Grab => ClearedInv(s, s.live, s.action);
    case SetAction(action) => ClearedInv(s, s.held, action);
    case Clear => ClearedInv(s, s.held, s.action);
    case PendingTimer => ClearedInv(s, s.held, s.action);
  }

  lemma StepInv(s: State, e: Event)
    requires Inv(s)
    ensures Inv(Step(s, e))
  {
    match e.command
    case NextSpoolId(_) => ResultStepInv(s, e);
    case SharedRead(_, _, _) => ResultStepInv(s, e);
    case Insert(_) => UseStepInv(s, e);
    case BypassLoad => UseStepInv(s, e);
    case ApplyHeld(_) => UseStepInv(s, e);
    case Grab => ClearStepInv(s, e);
    case SetAction(_) => ClearStepInv(s, e);
    case Clear => ClearStepInv(s, e);
    case PendingTimer => ClearStepInv(s, e);
    case DropHeld => DropInv(s);
    case Reinit => ReinitInv(s);
    case WarnTimer => WarnInv(s, e.now);
    case LookupTimer => LookupInv(s, false, e.now);
  }

  lemma WarnInv(s: State, now: real)
    requires Inv(s)
    ensures Inv(Step(s, Event(now, Params(0.0, Off), WarnTimer)))
  {
  }

  lemma DropInv(s: State)
    requires Inv(s)
    ensures Inv(s.(held := NOTHING))
  {
  }

  /** A reset forgets everything that waits but leaves the timers running; that does no harm. */
  lemma ReinitInv(s: State)
    requires Inv(s)
    ensures Inv(s.(live := NOTHING, phase := None, lookup := false, action := Idle))
  {
  }

  /** In every reachable state the invariant holds. */
  lemma {:induction false} RunInv(s: State, events: seq<Event>)
    requires Inv(s)
    ensures Inv(Run(s, events))
    decreases |events|
  {
    if events != [] {
      StepInv(s, events[0]);
      RunInv(Step(s, events[0]), events[1..]);
    }
  }

  lemma UsedStep(s: State, e: Event)
    ensures |Step(s, e).used| >= |s.used| && Step(s, e).used[..|s.used|] == s.used
  {
    var more :=
      match e.command
      case Insert(gate) => Uses(e.p, s.live, gate)
      case BypassLoad => BypassUses(e.p, s.live)
      case ApplyHeld(gate) => Uses(e.p, s.held, gate)
      case _ => [];
    StepUses(s, e, more);
    assert (s.used + more)[..|s.used|] == s.used;
  }

  lemma StepUses(s: State, e: Event, more: seq<Use>)
    requires more == match e.command
                     case Insert(gate) => Uses(e.p, s.live, gate)
                     case BypassLoad => BypassUses(e.p, s.live)
                     case ApplyHeld(gate) => Uses(e.p, s.held, gate)
                     case _ => []
    ensures Step(s, e).used == s.used + more
  {
  }

  lemma {:induction false} UsedGrows(s: State, events: seq<Event>)
    ensures |Run(s, events).used| >= |s.used| && Run(s, events).used[..|s.used|] == s.used
    decreases |events|
  {
    if events != [] {
      UsedStep(s, events[0]);
      UsedGrows(Step(s, events[0]), events[1..]);
      Prefixes(s.used, Step(s, events[0]).used, Run(s, events).used);
    }
  }

  lemma Prefixes(a: seq<Use>, b: seq<Use>, c: seq<Use>)
    requires |a| <= |b| <= |c| && b[..|a|] == a && c[..|b|] == b
    ensures c[..|a|] == a
  {
    assert c[..|a|] == c[..|b|][..|a|];
  }

  /** An assignment that was applied is not applied again and does not wait again, however the run goes on. */
  lemma AppliedOnce(s: State, events: seq<Event>, i: nat)
    requires Inv(s) && i < |s.used|
    ensures
      var after := Run(s, events);
      && s.used[i].serial !in Serials(after.live) + Serials(after.held)
      && forall k | 0 <= k < |after.used| && k != i :: after.used[k].serial != s.used[i].serial
  {
    RunInv(s, events);
    UsedGrows(s, events);
    var after := Run(s, events);
    assert after.used[i] == after.used[..|s.used|][i] == s.used[i];
  }

  /** Whatever waits is a new assignment that expires `timeout` from now. */
  predicate FreshTimer(after: State, p: Params, now: real) {
    after.timer == Some(now + p.timeout)
  }

  /** The warning comes in the second half of the wait, five seconds before its end if there are as many. */
  predicate WarnsInTime(after: State, p: Params, now: real) {
    if p.timeout <= 0.0 then after.warn.None?
    else
      after.warn.Some? &&
      var left := now + p.timeout - after.warn.value;
      left <= 5.0 && left <= p.timeout / 2.0 && (left == 5.0 || left == p.timeout / 2.0)
  }

  /** What waits, with its timer and its phase. */
  predicate SameWait(after: State, s: State) {
    after.live == s.live && after.timer == s.timer && after.held == s.held && after.used == s.used
  }

  /** What timers, actions and a reset do. A timer that is not due does nothing; the warning only changes the phase from
      waiting to expiring; the timeout of a lookup only releases the guard; an action that is no movement of filament
      keeps what waits; a reset leaves every timer running. */
  lemma TimersAndActions(s: State, e: Event)
    ensures
      var after := Step(s, e);
      match e.command
      case PendingTimer => Due(s.timer, e.now) || after == s
      case WarnTimer =>
        if Due(s.warn, e.now) then
          SameWait(after, s) && after.warn.None?
          && after.phase == (if s.phase == Some(Waiting) then Some(Expiring) else s.phase)
        else after == s
      case LookupTimer =>
        if Due(s.lookupTimer, e.now) then
          SameWait(after, s) && after.phase == s.phase && !after.lookup && after.lookupTimer.None?
        else after == s
      case SetAction(action) =>
        && after.action == action && after.used == s.used && after.held == s.held
        && (if action == s.action || action in {Idle, Preload, Selecting, Homing, Heating}
            then SameWait(after, s) && after.phase == s.phase
            else after.live == NOTHING && after.timer.None? && after.phase.None?)
      case Reinit =>
        && after.live == NOTHING && after.phase.None? && !after.lookup && after.action == Idle
        && after.timer == s.timer && after.warn == s.warn && after.lookupTimer == s.lookupTimer
        && after.held == s.held && after.used == s.used
      case _ => true
  {
  }

  /** What an answer or a read leaves waiting. A spool that is set keeps a waiting tag but not its data; a spool that
      is cancelled leaves the tag as it is; a tag that is read replaces the one that waited and keeps the spool. Every
      assignment takes a number, and the lookup is over with its answer. */
  lemma ResultsArrive(s: State, e: Event)
    requires e.command.NextSpoolId? || e.command.SharedRead?
    ensures
      var after := Step(s, e);
      match e.command
      case NextSpoolId(id) =>
        && !after.lookup && after.held == s.held && after.used == s.used
        && (id > 0 && e.p.support != Pull ==>
              && after.live.spool == Some(Spool(id, s.issued)) && after.issued == s.issued + 1
              && (after.live.tag.Some? <==> s.live.tag.Some?)
              && (s.live.tag.Some? ==> after.live.tag == Some(Tag(s.live.tag.value.uid, None, s.live.tag.value.serial)))
              && FreshTimer(after, e.p, e.now) && after.phase == Some(Waiting) && WarnsInTime(after, e.p, e.now))
        && (id > 0 && e.p.support == Pull ==> after.live == s.live && after.timer == s.timer)
        && (id <= 0 ==>
              && after.live == Pending(None, s.live.tag) && after.phase.None? && after.issued == s.issued
              && if s.live.tag.Some? then FreshTimer(after, e.p, e.now) else after.timer.None?)
      case SharedRead(uid, metadata, sent) =>
        && after.live == Pending(s.live.spool, Some(Tag(uid, metadata, s.issued))) && after.issued == s.issued + 1
        && FreshTimer(after, e.p, e.now) && after.held == s.held && after.used == s.used
        && (after.lookup <==> s.lookup || (sent && e.p.support != Off))
      case _ => true
  {
  }

  /** What is to be used of an assignment at a gate: the spool unless spools are pulled from the database, and the tag;
      at a bypass the spool, or without one the tag if its data is known. */
  predicate IsUse(p: Params, pending: Pending, gate: int, u: Use) {
    || (pending.spool.Some? && p.support != Pull && u == Use(pending.spool.value.serial, gate))
    || (pending.tag.Some? && u == Use(pending.tag.value.serial, gate))
  }

  predicate IsBypassUse(p: Params, pending: Pending, u: Use) {
    if pending.spool.Some? && p.support != Pull then u == Use(pending.spool.value.serial, BYPASS)
    else pending.tag.Some? && pending.tag.value.metadata.Some? && u == Use(pending.tag.value.serial, BYPASS)
  }

  /** What waits is applied, all of it and nothing else, to a gate that is loaded, to the bypass, and what was grabbed
      to the gate of the preload. No other event applies anything. */
  lemma WaitingIsApplied(s: State, e: Event, u: Use)
    ensures
      u in Step(s, e).used <==>
        || u in s.used
        || (e.command.Insert? && IsUse(e.p, s.live, e.command.gate, u))
        || (e.command.ApplyHeld? && IsUse(e.p, s.held, e.command.gate, u))
        || (e.command.BypassLoad? && IsBypassUse(e.p, s.live, u))
  {
    UsedStep(s, e);
    match e.command
    case Insert(gate) => assert u in Uses(e.p, s.live, gate) <==> IsUse(e.p, s.live, gate, u);
    case ApplyHeld(gate) => assert u in Uses(e.p, s.held, gate) <==> IsUse(e.p, s.held, gate, u);
    case BypassLoad => assert u in BypassUses(e.p, s.live) <==> IsBypassUse(e.p, s.live, u);
    case _ =>
  }

  /** What ends the wait: the timer once it is due, a clearing event, any use, and the start of a filament movement. */
  lemma WaitEnds(s: State, e: Event)
    requires
      || e.command in {Clear, Grab, BypassLoad, Reinit}
      || e.command.Insert? || e.command.ApplyHeld?
      || (e.command.PendingTimer? && Due(s.timer, e.now))
      || (e.command.SetAction? && e.command.action != s.action && !Exempt(e.command.action))
    requires Inv(s)
    ensures Step(s, e).live == NOTHING && Step(s, e).phase.None?
  {
  }

  /** A preload applies exactly what it grabbed, whatever comes in while it runs: an assignment that arrives in
      between is dropped, not applied in its place. */
  lemma {:induction false} PreloadUsesWhatItGrabbed(s: State, grab: Event, between: seq<Event>, apply: Event)
    requires Inv(s) && grab.command.Grab? && apply.command.ApplyHeld?
    requires forall i | 0 <= i < |between| :: between[i].command !in {Grab, DropHeld} && !between[i].command.ApplyHeld?
    ensures
      var running := Run(Step(s, grab), between);
      var after := Step(running, apply);
      && after.used == running.used + Uses(apply.p, s.live, apply.command.gate)
      && after.live == NOTHING && after.held == NOTHING
  {
    StepInv(s, grab);
    HeldKept(Step(s, grab), between);
    RunInv(Step(s, grab), between);
  }

  lemma {:induction false} HeldKept(s: State, events: seq<Event>)
    requires forall i | 0 <= i < |events| :: events[i].command !in {Grab, DropHeld} && !events[i].command.ApplyHeld?
    ensures Run(s, events).held == s.held
    decreases |events|
  {
    if events != [] {
      HeldKept(Step(s, events[0]), events[1..]);
    }
  }
}
