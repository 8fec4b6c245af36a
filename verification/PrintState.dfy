/** The print state machine together with pausing on errors, unlocking and resuming. */
module PrintState {

  datatype Option<T> =
    | None
    | Some(value: T)

  datatype Job =
    | Initialized
    | Ready
    | Started
    | Printing
    | Complete
    | Cancelled
    | Failed
    | PauseLocked
    | Paused
    | Standby
    | Idle

  /** Events sent when printing begins and when it ceases. */
  datatype Notice =
    | NowPrinting
    | NotPrinting

  datatype State = State(
    job: Job,
    resumeTo: Job,
    reason: Option<string>,
    pausedTemp: Option<real>,
    monitoring: bool,
    target: real,
    printerPrinting: bool,
    forced: bool,
    notices: seq<Notice>)

  datatype Command =
    | Error(reason: string, force: bool)
    | Unlock(heats: bool)
    | Resume(printerPaused: bool, refused: bool, unlockHeats: bool, resumeHeats: bool)
    | PrintStart
    | AutoStart
    | PrintEnd(end: Job)
    | Cancel
    | Wakeup
    | Disable
    | Reinit
    | Boot
    | HeaterOff
    | SetTarget(temp: real)
    | SetPrinter(printing: bool)

  // ---------------------------------------------------------------------------------------------- predicates

  predicate IsPrinting(s: State) {
    s.job in {Started, Printing} || s.forced
  }

  predicate IsInPrint(s: State, force: bool) {
    s.job in {Printing, PauseLocked, Paused} || force || s.forced
  }

  predicate IsMmuPaused(s: State) {
    s.job in {PauseLocked, Paused}
  }

  predicate IsInEndState(s: State) {
    s.job in {Complete, Cancelled, Failed, Ready, Standby, Initialized}
  }

  predicate EndState(job: Job) {
    job in {Complete, Failed, Cancelled, Ready, Standby}
  }

  // --------------------------------------------------------------------------------------------- transitions

  function SetPrint(s: State, job: Job): State {
    if job == s.job then s
    else s.(job := job,
            notices := s.notices + if job == Printing then [NowPrinting]
                                   else if s.job == Printing then [NotPrinting] else [])
  }

  function OnPrintStart(s: State, preStartOnly: bool): State {
    var started := if s.job in {Started, Printing} then s
                   else SetPrint(s.(pausedTemp := None, monitoring := true), Started);
    if preStartOnly || started.job == Printing then started else SetPrint(started, Printing)
  }

  function OnPrintEnd(s: State, end: Job): State {
    var ended := if IsInEndState(s) then s
                 else SetPrint(s.(resumeTo := Ready, pausedTemp := None, monitoring := false), end);
    if end == Standby && ended.job != Standby then SetPrint(ended, Standby) else ended
  }

  /** Early moves of a print force it out of the state before the start. */
  function FixStarted(s: State): State {
    if s.printerPrinting && !IsInPrint(s, false) then OnPrintStart(s, false) else s
  }

  /** The temperature that was saved when the print was paused is set again if it is above zero. */
  function TempRestored(s: State): State {
    if s.pausedTemp.Some? && s.pausedTemp.value > 0.0 then s.(target := s.pausedTemp.value) else s
  }

  function HandleError(s: State, reason: string, force: bool): State {
    var fixed := FixStarted(s);
    if IsInPrint(fixed, force) && !IsMmuPaused(fixed) then
      SetPrint(fixed.(monitoring := false,
                      resumeTo := if IsInPrint(fixed, false) then Printing else Ready,
                      reason := Some(reason),
                      pausedTemp := Some(fixed.target)), PauseLocked)
    else fixed
  }

  /** Waiting for the temperature can fail; the state stays locked then. */
  function Unlocked(s: State, heats: bool): State {
    if !IsMmuPaused(s) then s
    else if heats then SetPrint(TempRestored(s), Paused)
    else TempRestored(s)
  }

  /** The reason is gone before the wait for the temperature, which can fail. */
  function Resumed(s: State, heats: bool): State {
    if IsMmuPaused(s) && !heats then TempRestored(s.(reason := None))
    else if IsMmuPaused(s) then
      var warm := TempRestored(s.(reason := None)).(pausedTemp := None);
      var on := if IsInPrint(warm, false) then warm.(monitoring := true) else warm;
      SetPrint(on, s.resumeTo).(resumeTo := Ready)
    else s
  }

  const REFUSED := "Cannot resume because filament position not indicated as fully loaded (or unloaded)"

  function Step(s: State, command: Command): State {
    match command
    case Error(reason, force) => HandleError(s, reason, force)
    case Unlock(heats) => if s.job == PauseLocked then Unlocked(s, heats) else s
    case Resume(printerPaused, refused, unlockHeats, resumeHeats) =>
      if !printerPaused && !IsMmuPaused(s) then s
      else
        var open := if s.job == PauseLocked then Unlocked(s, unlockHeats) else s;
        if open.job == PauseLocked then open
        else if refused then HandleError(open, REFUSED, false)
        else Resumed(open, resumeHeats)
    case PrintStart => if IsInPrint(s, false) then s else OnPrintStart(s, false)
    case AutoStart => if s.job in {Started, Printing} then s else OnPrintStart(s, true)
    case PrintEnd(end) => if IsInEndState(s) || IsMmuPaused(s) || !EndState(end) then s else OnPrintEnd(s, end)
    case Cancel => OnPrintEnd(FixStarted(s), Cancelled)
    case Wakeup => if s.job == Standby then SetPrint(s, Idle) else s
    case Disable => SetPrint(s.(monitoring := false), Standby)
    case Reinit => s.(job := Ready, resumeTo := Ready, reason := None, pausedTemp := None, monitoring := false)
    case Boot => SetPrint(s, Initialized)
    case HeaterOff => if IsPrinting(s) then s else s.(target := 0.0)
    case SetTarget(temp) => s.(target := temp)
    case SetPrinter(printing) => s.(printerPrinting := printing)
  }

  function Run(s: State, commands: seq<Command>): State
    decreases |commands|
  {
    if commands == [] then s else Run(Step(s, commands[0]), commands[1..])
  }

  /** The job each command leads to, said of the job before. */
  function JobAfter(s: State, command: Command): Job {
    var paused := s.job == PauseLocked || s.job == Paused;
    var inPrint := s.job == Printing || paused || s.forced;
    var atEnd := s.job in {Complete, Cancelled, Failed, Ready, Standby, Initialized};
    match command
    case Error(_, force) => if !paused && (inPrint || force || s.printerPrinting) then PauseLocked else s.job
    case Unlock(heats) => if s.job == PauseLocked && heats then Paused else s.job
    case Resume(printerPaused, refused, unlockHeats, resumeHeats) =>
      if !paused then
        if printerPaused && refused && (inPrint || s.printerPrinting) then PauseLocked else s.job
      else if s.job == PauseLocked && !unlockHeats then PauseLocked
      else if refused || !resumeHeats then Paused
      else s.resumeTo
    case PrintStart => if inPrint then s.job else Printing
    case AutoStart => if s.job == Printing then Printing else Started
    case PrintEnd(end) => if atEnd || paused || !EndState(end) then s.job else end
    case Cancel => if atEnd && (s.forced || !s.printerPrinting) then s.job else Cancelled
    case Wakeup => if s.job == Standby then Idle else s.job
    case Disable => Standby
    case Reinit => Ready
    case Boot => Initialized
    case _ => s.job
  }

  /** The heater keeps its target except where a pause is taken up again, where one is set, and where it is turned off
      outside a print. */
  function TargetAfter(s: State, command: Command): real {
    var saved := s.job in {PauseLocked, Paused} && s.pausedTemp.Some? && s.pausedTemp.value > 0.0;
    match command
    case SetTarget(temp) => temp
    case HeaterOff => if s.job in {Started, Printing} || s.forced then s.target else 0.0
    case Unlock(_) => if saved && s.job == PauseLocked then s.pausedTemp.value else s.target
    case Resume(_, refused, _, _) =>
      if saved && (s.job == PauseLocked || !refused) then s.pausedTemp.value else s.target
    case _ => s.target
  }

  /** Monitoring goes off with a pause, the end of a print, a reset and a disabled machine, and on with a print and with
      the end of a pause. */
  predicate MonitoringAfter(s: State, command: Command) {
    var paused := s.job in {PauseLocked, Paused};
    var inPrint := s.job == Printing || paused || s.forced;
    var atEnd := s.job in {Complete, Cancelled, Failed, Ready, Standby, Initialized};
    match command
    case Error(_, _) => if !paused && JobAfter(s, command) == PauseLocked then false else s.monitoring
    case Resume(_, refused, unlockHeats, resumeHeats) =>
      if !paused && JobAfter(s, command) == PauseLocked then false
      else (paused && (s.job == PauseLocked ==> unlockHeats) && !refused && resumeHeats) || s.monitoring
    case PrintStart => s.monitoring || !(inPrint || s.job == Started)
    case AutoStart => s.monitoring || !(s.job == Started || s.job == Printing)
    case PrintEnd(end) => if atEnd || paused || !EndState(end) then s.monitoring else false
    case Cancel => if atEnd && (s.forced || !s.printerPrinting) then s.monitoring else false
    case Disable => false
    case Reinit => false
    case _ => s.monitoring
  }

  lemma ErrorLeadsTo(s: State, reason: string, force: bool)
    ensures HandleError(s, reason, force).job == JobAfter(s, Error(reason, force))
    ensures HandleError(s, reason, force).target == s.target
    ensures HandleError(s, reason, force).monitoring <==> MonitoringAfter(s, Error(reason, force))
  {
  }

  lemma UnlockLeadsTo(s: State, heats: bool)
    requires s.job == PauseLocked
    ensures Unlocked(s, heats).job == JobAfter(s, Unlock(heats))
    ensures Unlocked(s, heats).target == TargetAfter(s, Unlock(heats))
    ensures Unlocked(s, heats).pausedTemp == s.pausedTemp && Unlocked(s, heats).resumeTo == s.resumeTo
    ensures Unlocked(s, heats).monitoring == s.monitoring
  {
  }

  lemma ResumeLeadsTo(s: State, printerPaused: bool, refused: bool, unlockHeats: bool, resumeHeats: bool)
    ensures var command := Resume(printerPaused, refused, unlockHeats, resumeHeats);
            && Step(s, command).job == JobAfter(s, command) && Step(s, command).target == TargetAfter(s, command)
            && (Step(s, command).monitoring <==> MonitoringAfter(s, command))
  {
    var open := if s.job == PauseLocked then Unlocked(s, unlockHeats) else s;
    if s.job == PauseLocked {
      UnlockLeadsTo(s, unlockHeats);
    }
    ErrorLeadsTo(open, REFUSED, false);
  }

  /** Every command leads to that job, leaves the heater at that target and monitoring on or off like that. */
  lemma LeadsTo(s: State, command: Command)
    ensures Step(s, command).job == JobAfter(s, command) && Step(s, command).target == TargetAfter(s, command)
    ensures Step(s, command).monitoring <==> MonitoringAfter(s, command)
  {
    match command
    case Error(reason, force) => ErrorLeadsTo(s, reason, force);
    case Unlock(heats) => if s.job == PauseLocked { UnlockLeadsTo(s, heats); }
    case Resume(printerPaused, refused, unlockHeats, resumeHeats) =>
      ResumeLeadsTo(s, printerPaused, refused, unlockHeats, resumeHeats);
    case _ =>
  }

  // ------------------------------------------------------------------------------------- what a pause keeps

  /** A paused MMU has the temperature to come back to and no monitoring; it resumes to printing or, when it was paused
      out of a print, to ready. */
  predicate PauseKept(s: State) {
    IsMmuPaused(s) ==> !s.monitoring && s.pausedTemp.Some? && s.resumeTo in {Printing, Ready}
  }

  lemma StepPauseKept(s: State, command: Command)
    requires PauseKept(s)
    ensures PauseKept(Step(s, command))
  {
    match command
    case Error(reason, force) => ErrorPauseKept(s, reason, force);
    case Resume(_, _, unlockHeats, resumeHeats) =>
      var open := if s.job == PauseLocked then Unlocked(s, unlockHeats) else s;
      ResumePauseKept(s, unlockHeats);
      ErrorPauseKept(open, REFUSED, false);
      ResumePauseKept(open, resumeHeats);
    case _ =>
  }

  lemma ErrorPauseKept(s: State, reason: string, force: bool)
    requires PauseKept(s)
    ensures PauseKept(HandleError(s, reason, force))
  {
  }

  lemma ResumePauseKept(s: State, heats: bool)
    requires PauseKept(s)
    ensures PauseKept(Unlocked(s, heats)) && PauseKept(Resumed(s, heats))
  {
  }

  lemma {:induction false} RunPauseKept(s: State, commands: seq<Command>)
    requires PauseKept(s)
    ensures PauseKept(Run(s, commands))
    decreases |commands|
  {
    if commands != [] {
      StepPauseKept(s, commands[0]);
      RunPauseKept(Step(s, commands[0]), commands[1..]);
    }
  }

  /** What may happen during a pause without ending it: further errors, unlocking, a resume that is refused or fails to
      heat, print start and end commands, waking up, and changes of the heater. */
  predicate Meanwhile(command: Command) {
    match command
    case Error(_, _) => true
    case Unlock(_) => true
    case Resume(_, refused, _, resumeHeats) => refused || !resumeHeats
    case PrintStart => true
    case PrintEnd(_) => true
    case Wakeup => true
    case HeaterOff => true
    case SetTarget(_) => true
    case _ => false
  }

  /** A resume that gets past unlocking and the check of the filament, but fails to heat. */
  predicate LosesReason(s: State, command: Command) {
    match command
    case Resume(_, refused, unlockHeats, resumeHeats) =>
      IsMmuPaused(s) && (s.job == PauseLocked ==> unlockHeats) && !refused && !resumeHeats
    case _ => false
  }

  predicate SomeLosesReason(s: State, commands: seq<Command>)
    decreases |commands|
  {
    commands != [] && (LosesReason(s, commands[0]) || SomeLosesReason(Step(s, commands[0]), commands[1..]))
  }

  /** The pause that a first error brought about. */
  predicate PausedBy(s: State, temp: real, resumeTo: Job, notices: seq<Notice>) {
    && IsMmuPaused(s) && !s.monitoring && s.resumeTo == resumeTo && s.notices == notices && s.pausedTemp == Some(temp)
  }

  lemma StepInPause(s: State, command: Command, temp: real, resumeTo: Job, notices: seq<Notice>)
    requires PausedBy(s, temp, resumeTo, notices) && Meanwhile(command)
    ensures PausedBy(Step(s, command), temp, resumeTo, notices)
    ensures Step(s, command).reason == if LosesReason(s, command) then None else s.reason
  {
    match command
    case Resume(_, refused, unlockHeats, resumeHeats) =>
      var open := if s.job == PauseLocked then Unlocked(s, unlockHeats) else s;
      assert PausedBy(open, temp, resumeTo, notices) && open.reason == s.reason;
      assert HandleError(open, REFUSED, false) == open;
    case _ =>
  }

  lemma {:induction false} PauseLasts(s: State, commands: seq<Command>, temp: real, resumeTo: Job,
                                      notices: seq<Notice>)
    requires PausedBy(s, temp, resumeTo, notices)
    requires forall i | 0 <= i < |commands| :: Meanwhile(commands[i])
    ensures PausedBy(Run(s, commands), temp, resumeTo, notices)
    ensures s.reason.None? ==> Run(s, commands).reason.None?
    ensures s.reason.Some? ==> Run(s, commands).reason == if SomeLosesReason(s, commands) then None else s.reason
    decreases |commands|
  {
    if commands != [] {
      StepInPause(s, commands[0], temp, resumeTo, notices);
      PauseLasts(Step(s, commands[0]), commands[1..], temp, resumeTo, notices);
    }
  }

  /** The state a resume leads back to. */
  predicate BackFrom(back: State, temp: real, resumeTo: Job, notices: seq<Notice>) {
    && back.job == resumeTo && back.monitoring && back.reason.None? && back.pausedTemp.None?
    && back.notices == notices + (if resumeTo == Printing then [NowPrinting] else [])
    && (temp > 0.0 ==> back.target == temp)
  }

  lemma ResumeEndsPause(s: State, temp: real, resumeTo: Job, notices: seq<Notice>, printerPaused: bool)
    requires PausedBy(s, temp, resumeTo, notices) && resumeTo in {Printing, Ready}
    ensures BackFrom(Step(s, Resume(printerPaused, false, true, true)), temp, resumeTo, notices)
  {
    var open := if s.job == PauseLocked then Unlocked(s, true) else s;
    assert PausedBy(open, temp, resumeTo, notices) && open.job == Paused;
    ResumedFrom(open, temp, resumeTo, notices);
  }

  lemma ResumedFrom(s: State, temp: real, resumeTo: Job, notices: seq<Notice>)
    requires PausedBy(s, temp, resumeTo, notices) && resumeTo in {Printing, Ready}
    ensures BackFrom(Resumed(s, true), temp, resumeTo, notices)
  {
  }

  /** A pause, whatever happens meanwhile, and the resume. */
  lemma PauseAndBack(paused: State, between: seq<Command>, temp: real, resumeTo: Job, notices: seq<Notice>,
                     printerPaused: bool)
    requires PausedBy(paused, temp, resumeTo, notices) && resumeTo in {Printing, Ready}
    requires forall i | 0 <= i < |between| :: Meanwhile(between[i])
    ensures BackFrom(Step(Run(paused, between), Resume(printerPaused, false, true, true)), temp, resumeTo, notices)
  {
    PauseLasts(paused, between, temp, resumeTo, notices);
    ResumeEndsPause(Run(paused, between), temp, resumeTo, notices, printerPaused);
  }

  lemma FirstErrorPauses(s: State, reason: string, force: bool)
    requires !IsMmuPaused(s) && IsInPrint(FixStarted(s), force)
    ensures
      var paused := Step(s, Error(reason, force));
      var fixed := FixStarted(s);
      && PausedBy(paused, fixed.target, if IsInPrint(fixed, false) then Printing else Ready, paused.notices)
      && paused.reason == Some(reason) && fixed.target == s.target
      && paused.notices == fixed.notices + if fixed.job == Printing then [NotPrinting] else []
  {
  }

  /** From printing: a first error, then anything that does not end the pause, then a resume. All through the pause the
      temperature is that of the first error and monitoring is off, and the reason is that of the first error exactly
      as long as no resume failed to heat; the resume leads back to printing with monitoring on, and sets that
      temperature again if it is above zero. */
  lemma FirstErrorHolds(s: State, reason: string, force: bool, between: seq<Command>, k: nat, printerPaused: bool)
    requires s.job == Printing && k <= |between|
    requires forall i | 0 <= i < |between| :: Meanwhile(between[i])
    ensures
      var paused := Step(s, Error(reason, force));
      var held := Run(paused, between[..k]);
      var back := Step(Run(paused, between), Resume(printerPaused, false, true, true));
      && PausedBy(held, s.target, Printing, s.notices + [NotPrinting])
      && (held.reason == Some(reason) <==> !SomeLosesReason(paused, between[..k]))
      && BackFrom(back, s.target, Printing, s.notices + [NotPrinting])
  {
    var paused := Step(s, Error(reason, force));
    FirstErrorPauses(s, reason, force);
    PauseLasts(paused, between[..k], s.target, Printing, s.notices + [NotPrinting]);
    PauseAndBack(paused, between, s.target, Printing, s.notices + [NotPrinting], printerPaused);
  }

  /** For every first error that pauses: after the resume monitoring is on exactly when the print goes on, if and only
      if the error came in a print. */
  lemma MonitoringMatchesPrint(s: State, reason: string, force: bool, between: seq<Command>, printerPaused: bool)
    requires !IsMmuPaused(s) && IsInPrint(FixStarted(s), force)
    requires forall i | 0 <= i < |between| :: Meanwhile(between[i])
    ensures
      var back := Step(Run(Step(s, Error(reason, force)), between), Resume(printerPaused, false, true, true));
      (back.monitoring <==> back.job == Printing) <==> IsInPrint(FixStarted(s), false)
  {
    var paused := Step(s, Error(reason, force));
    var resumeTo := if IsInPrint(FixStarted(s), false) then Printing else Ready;
    FirstErrorPauses(s, reason, force);
    PauseAndBack(paused, between, s.target, resumeTo, paused.notices, printerPaused);
  }

  /** The other case: an error that is treated as one in a print although there is none. The resume leads back to
      ready, but with monitoring on, because the test for being in a print is made while the state is still paused. */
  lemma ForcedErrorLeavesMonitoring(s: State, reason: string, between: seq<Command>, printerPaused: bool)
    requires !IsInPrint(s, false) && !s.printerPrinting
    requires forall i | 0 <= i < |between| :: Meanwhile(between[i])
    ensures
      var back := Step(Run(Step(s, Error(reason, true)), between), Resume(printerPaused, false, true, true));
      back.job == Ready && back.monitoring
  {
    var paused := Step(s, Error(reason, true));
    FirstErrorPauses(s, reason, true);
    PauseAndBack(paused, between, s.target, Ready, paused.notices, printerPaused);
  }

  // --------------------------------------------------------------------------------------- alternating events

  /** The notices alternate, beginning with the start of printing. */
  predicate Alternates(notices: seq<Notice>) {
    forall i | 0 <= i < |notices| :: notices[i] == if i % 2 == 0 then NowPrinting else NotPrinting
  }

  /** ... and the last one tells whether printing goes on. */
  predicate InStep(s: State) {
    Alternates(s.notices) && (s.job == Printing <==> |s.notices| % 2 == 1)
  }

  lemma SetPrintInStep(s: State, job: Job)
    requires InStep(s)
    ensures InStep(SetPrint(s, job))
  {
  }

  /** A command keeps the notices in step with the state exactly when it is not a reset while printing. */
  lemma StepInStep(s: State, command: Command)
    requires InStep(s)
    ensures InStep(Step(s, command)) <==> !(command.Reinit? && s.job == Printing)
  {
    if command.Reinit? {
      assert Step(s, command).notices == s.notices;
    } else {
      NotResetInStep(s, command);
    }
  }

  lemma StartInStep(s: State, preStartOnly: bool)
    requires InStep(s)
    ensures InStep(OnPrintStart(s, preStartOnly))
  {
    var quiet := s.(pausedTemp := None, monitoring := true);
    SetPrintInStep(quiet, Started);
    SetPrintInStep(if s.job in {Started, Printing} then s else SetPrint(quiet, Started), Printing);
  }

  lemma EndInStep(s: State, end: Job)
    requires InStep(s)
    ensures InStep(OnPrintEnd(s, end))
  {
    var quiet := s.(resumeTo := Ready, pausedTemp := None, monitoring := false);
    SetPrintInStep(quiet, end);
    SetPrintInStep(if IsInEndState(s) then s else SetPrint(quiet, end), Standby);
  }

  lemma ErrorInStep(s: State, reason: string, force: bool)
    requires InStep(s)
    ensures InStep(HandleError(s, reason, force))
  {
    StartInStep(s, false);
    var fixed := FixStarted(s);
    SetPrintInStep(fixed.(monitoring := false, resumeTo := if IsInPrint(fixed, false) then Printing else Ready,
                          reason := Some(reason), pausedTemp := Some(fixed.target)), PauseLocked);
  }

  lemma ResumeInStep(s: State, heats: bool)
    requires InStep(s)
    ensures InStep(Unlocked(s, heats)) && InStep(Resumed(s, heats))
  {
    SetPrintInStep(TempRestored(s), Paused);
    var warm := TempRestored(s.(reason := None)).(pausedTemp := None);
    SetPrintInStep(if IsInPrint(warm, false) then warm.(monitoring := true) else warm, s.resumeTo);
  }

  lemma NotResetInStep(s: State, command: Command)
    requires InStep(s) && !command.Reinit?
    ensures InStep(Step(s, command))
  {
    match command
    case Error(reason, force) => ErrorInStep(s, reason, force);
    case Unlock(heats) => ResumeInStep(s, heats);
    case Resume(_, _, unlockHeats, resumeHeats) =>
      ResumeInStep(s, unlockHeats);
      var open := if s.job == PauseLocked then Unlocked(s, unlockHeats) else s;
      ResumeInStep(open, resumeHeats);
      ErrorInStep(open, REFUSED, false);
    case PrintStart => StartInStep(s, false);
    case AutoStart => StartInStep(s, true);
    case PrintEnd(end) => EndInStep(s, end);
    case Cancel => StartInStep(s, false); EndInStep(FixStarted(s), Cancelled);
    case Wakeup => SetPrintInStep(s, Idle);
    case Disable => SetPrintInStep(s.(monitoring := false), Standby);
    case Boot => SetPrintInStep(s, Initialized);
    case HeaterOff =>
    case SetTarget(_) =>
    case SetPrinter(_) =>
  }

  /** No reset happens in the run while a print is on. */
  predicate NoResetInPrint(s: State, commands: seq<Command>)
    decreases |commands|
  {
    commands == []
    || (!(commands[0].Reinit? && s.job == Printing) && NoResetInPrint(Step(s, commands[0]), commands[1..]))
  }

  /** Over every run without a reset while printing the two events strictly alternate. */
  lemma {:induction false} RunAlternates(s: State, commands: seq<Command>)
    requires InStep(s) && NoResetInPrint(s, commands)
    ensures InStep(Run(s, commands))
    decreases |commands|
  {
    if commands != [] {
      StepInStep(s, commands[0]);
      RunAlternates(Step(s, commands[0]), commands[1..]);
    }
  }

  /** With one they do not: the reset is silent, so that the next print start sends a second event of the same kind. */
  lemma ResetInPrintRepeats(s: State)
    requires InStep(s) && s.job == Printing && !s.forced
    ensures
      var after := Run(s, [Reinit, PrintStart]);
      after.notices == s.notices + [NowPrinting] && !Alternates(after.notices)
  {
    var reset := Step(s, Reinit);
    var after := Step(reset, PrintStart);
    assert [Reinit, PrintStart][1..] == [PrintStart] && [PrintStart][1..] == [];
    assert Run(s, [Reinit, PrintStart]) == Run(reset, [PrintStart]) == Run(after, []) == after;
    assert after.notices == s.notices + [NowPrinting];
    assert after.notices[|s.notices|] == NowPrinting;
  }
}
