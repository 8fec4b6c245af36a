/** The print state machine as an object, with the error, unlock and resume logic of the controller on top of it. */
module PrintMachine {
  import opened PrintState

  class PrintStateMachine {
    var job: Job
    var resumeToState: Job
    var reasonForPause: Option<string>
    var pausedExtruderTemp: Option<real>
    var monitoringEnabled: bool
    var heaterTarget: real
    var printerPrinting: bool
    const forceInPrint: bool
    var notices: seq<Notice>

    function View(): State
      reads this
    {
      State(job, resumeToState, reasonForPause, pausedExtruderTemp, monitoringEnabled, heaterTarget, printerPrinting,
            forceInPrint, notices)
    }

    constructor (target: real, forceInPrint: bool)
      ensures View() == State(Ready, Ready, None, None, false, target, false, forceInPrint, [])
      ensures PauseKept(View()) && InStep(View())
    {
      job, resumeToState := Ready, Ready;
      reasonForPause, pausedExtruderTemp := None, None;
      monitoringEnabled := false;
      heaterTarget := target;
      printerPrinting := false;
      this.forceInPrint := forceInPrint;
      notices := [];
    }

    method Reinit()
      modifies this
      ensures View() == Step(old(View()), Command.Reinit)
    {
      pausedExtruderTemp := None;
      reasonForPause := None;
      job := Ready;
      resumeToState := Ready;
      monitoringEnabled := false;
    }

    /** Monitoring, temperatures and reasons stay, and events that alternate with the state go on doing so. */
    method SetPrintState(next: Job)
      modifies this`job, this`notices
      ensures View() == SetPrint(old(View()), next)
      ensures job == next && old(notices) <= notices
      ensures notices <= old(notices) + [if next == Printing then NowPrinting else NotPrinting]
      ensures old(InStep(View())) ==> InStep(View())
    {
      ghost var was := View();
      var prior := job;
      if next == prior {
        return;
      }
      job := next;
      if next == Printing {
        notices := notices + [NowPrinting];
      } else if prior == Printing {
        notices := notices + [NotPrinting];
      } else {
        assert notices + [] == notices;
      }
      if InStep(was) {
        SetPrintInStep(was, next);
      }
    }

    /** Afterwards the job is on, from a new start with monitoring and without a temperature to come back to. */
    method OnPrintStart(preStartOnly: bool)
      modifies this
      ensures View() == PrintState.OnPrintStart(old(View()), preStartOnly)
      ensures IsPrinting(View()) && (!preStartOnly ==> job == Printing)
      ensures old(job) !in {Started, Printing} ==> monitoringEnabled && pausedExtruderTemp.None?
      ensures PauseKept(View()) && (old(InStep(View())) ==> InStep(View()))
    {
      ghost var was := View();
      if job !in {Started, Printing} {
        pausedExtruderTemp := None;
        monitoringEnabled := true;
        SetPrintState(Started);
      }
      if !preStartOnly && job != Printing {
        SetPrintState(Printing);
      }
      if InStep(was) {
        StartInStep(was, preStartOnly);
      }
    }

    /** Afterwards nothing is printing or paused; unless the job had ended before, monitoring is off. */
    method OnPrintEnd(end: Job)
      modifies this
      requires EndState(end)
      ensures View() == PrintState.OnPrintEnd(old(View()), end)
      ensures IsInEndState(View()) && (end == Standby ==> job == Standby)
      ensures !old(IsInEndState(View())) ==>
                job == end && !monitoringEnabled && pausedExtruderTemp.None? && resumeToState == Ready
      ensures PauseKept(View()) && (old(InStep(View())) ==> InStep(View()))
    {
      ghost var was := View();
      if !IsInEndState(View()) {
        resumeToState := Ready;
        pausedExtruderTemp := None;
        monitoringEnabled := false;
        SetPrintState(end);
      }
      if end == Standby && job != Standby {
        SetPrintState(Standby);
      }
      if InStep(was) {
        EndInStep(was, end);
      }
    }

    method FixStartedState()
      modifies this
      ensures View() == FixStarted(old(View()))
      ensures printerPrinting ==> IsInPrint(View(), false)
      ensures old(PauseKept(View())) ==> PauseKept(View())
    {
      var inPrint := InPrint(false);
      if printerPrinting && !inPrint {
        OnPrintStart(false);
      }
    }

    method InPrint(force: bool) returns (inPrint: bool)
      ensures inPrint <==> IsInPrint(View(), force)
    {
      inPrint := job in {Printing, PauseLocked, Paused} || force || forceInPrint;
    }

    /** The first error of a pause decides what the pause keeps; later ones change nothing. */
    method HandleMmuError(reason: string, force: bool)
      requires PauseKept(View())
      modifies this
      ensures View() == HandleError(old(View()), reason, force)
      ensures old(IsMmuPaused(View())) ==> View() == old(View())
      ensures old(!IsMmuPaused(View()) && IsInPrint(FixStarted(View()), force)) ==>
                reasonForPause == Some(reason)
                && PausedBy(View(), old(heaterTarget),
                            if old(IsInPrint(FixStarted(View()), false)) then Printing else Ready, notices)
      ensures PauseKept(View()) && (old(InStep(View())) ==> InStep(View()))
    {
      ghost var was := View();
      FixStartedState();
      var inPrint := InPrint(force);
      if inPrint && job !in {PauseLocked, Paused} {
        monitoringEnabled := false;
        var really := InPrint(false);
        resumeToState := if really then Printing else Ready;
        reasonForPause := Some(reason);
        pausedExtruderTemp := Some(heaterTarget);
        SetPrintState(PauseLocked);
      }
      if InStep(was) {
        ErrorInStep(was, reason, force);
      }
    }

    /** Sets the temperature that was saved at the pause. */
    method EnsurePauseTemperature()
      requires pausedExtruderTemp.Some?
      modifies this`heaterTarget
      ensures View() == TempRestored(old(View()))
    {
      if pausedExtruderTemp.value > 0.0 {
        heaterTarget := pausedExtruderTemp.value;
      }
    }

    /** The pause goes on with all it keeps, unlocked unless the heater fails. */
    method MmuUnlock(heats: bool)
      requires PauseKept(View())
      modifies this
      ensures View() == Unlocked(old(View()), heats)
      ensures old(IsMmuPaused(View())) ==>
                PausedBy(View(), old(pausedExtruderTemp).value, old(resumeToState), old(notices))
                && (job == Paused <==> heats || old(job) == Paused)
      ensures heaterTarget == if old(IsMmuPaused(View())) && old(pausedExtruderTemp).value > 0.0
                              then old(pausedExtruderTemp).value else old(heaterTarget)
      ensures reasonForPause == old(reasonForPause)
      ensures PauseKept(View()) && (old(InStep(View())) ==> InStep(View()))
    {
      ghost var was := View();
      ResumePauseKept(was, heats);
      if job in {PauseLocked, Paused} {
        EnsurePauseTemperature();
        if !heats {
          return;
        }
        SetPrintState(Paused);
      }
    }

    /** Leads back to where the pause began; if the heater fails, the pause goes on without its reason. */
    method ContinueAfterResume(heats: bool)
      requires PauseKept(View())
      modifies this
      ensures View() == Resumed(old(View()), heats)
      ensures old(IsMmuPaused(View())) && heats ==>
                BackFrom(View(), old(pausedExtruderTemp).value, old(resumeToState), old(notices))
      ensures old(IsMmuPaused(View())) && !heats ==>
                PausedBy(View(), old(pausedExtruderTemp).value, old(resumeToState), old(notices))
                && reasonForPause.None?
      ensures heaterTarget == if old(IsMmuPaused(View())) && old(pausedExtruderTemp).value > 0.0
                              then old(pausedExtruderTemp).value else old(heaterTarget)
      ensures PauseKept(View()) && (old(InStep(View())) ==> InStep(View()))
    {
      ghost var was := View();
      ResumePauseKept(was, heats);
      if InStep(was) {
        ResumeInStep(was, heats);
      }
      if IsMmuPaused(was) {
        ResumedFrom(was, was.pausedTemp.value, was.resumeTo, was.notices);
      }
      if job in {PauseLocked, Paused} {
        reasonForPause := None;
        EnsurePauseTemperature();
        if heats {
          LeavePause();
        }
      }
    }

    /** The last part of a resume, once the extruder is hot. */
    method LeavePause()
      modifies this
      ensures var warm := old(View()).(pausedTemp := None);
              var on := if IsInPrint(warm, false) then warm.(monitoring := true) else warm;
              View() == SetPrint(on, old(resumeToState)).(resumeTo := Ready)
    {
      pausedExtruderTemp := None;
      var inPrint := InPrint(false);
      if inPrint {
        monitoringEnabled := true;
      }
      SetPrintState(resumeToState);
      resumeToState := Ready;
    }

    /** The wrapper around the printer's own resume. */
    method ResumeCommand(printerPaused: bool, refused: bool, unlockHeats: bool, resumeHeats: bool)
      requires PauseKept(View())
      modifies this
      ensures View() == Step(old(View()), Resume(printerPaused, refused, unlockHeats, resumeHeats))
      ensures PauseKept(View())
    {
      if !printerPaused && job !in {PauseLocked, Paused} {
        return;
      }
      if job == PauseLocked {
        MmuUnlock(unlockHeats);
        if !unlockHeats {
          return;
        }
      }
      if refused {
        HandleMmuError(REFUSED, false);
      } else {
        ContinueAfterResume(resumeHeats);
      }
    }

    method Perform(command: Command)
      requires PauseKept(View())
      modifies this
      ensures View() == Step(old(View()), command) && PauseKept(View())
    {
      StepPauseKept(View(), command);
      match command
      case Error(reason, force) => HandleMmuError(reason, force);
      case Unlock(heats) =>
        if job == PauseLocked {
          MmuUnlock(heats);
        }
      case Resume(printerPaused, refused, unlockHeats, resumeHeats) =>
        ResumeCommand(printerPaused, refused, unlockHeats, resumeHeats);
      case PrintStart =>
        var inPrint := InPrint(false);
        if !inPrint {
          OnPrintStart(false);
        }
      case AutoStart =>
        if job !in {Started, Printing} {
          OnPrintStart(true);
        }
      case PrintEnd(end) =>
        if !IsInEndState(View()) && job !in {PauseLocked, Paused} && EndState(end) {
          OnPrintEnd(end);
        }
      case Cancel =>
        FixStartedState();
        OnPrintEnd(Cancelled);
      case Wakeup =>
        if job == Standby {
          SetPrintState(Idle);
        }
      case Disable =>
        monitoringEnabled := false;
        SetPrintState(Standby);
      case Reinit => Reinit();
      case Boot => SetPrintState(Initialized);
      case HeaterOff =>
        if job !in {Started, Printing} && !forceInPrint {
          heaterTarget := 0.0;
        }
      case SetTarget(temp) => heaterTarget := temp;
      case SetPrinter(printing) => printerPrinting := printing;
    }
  }
}
