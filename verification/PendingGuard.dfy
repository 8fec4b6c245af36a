/** The controller's fields for pending assignments and the methods that change them. */
module PendingGuard {
  import opened PendingSpool

  class Guard {
    var pendingSpoolId: int
    var spoolSerial: nat
    var pendingTag: Option<Tag>
    var heldByPreload: Pending
    var pendingPhase: Option<Phase>
    var pendingTimer: Option<real>
    var warnTimer: Option<real>
    var nfcLookupPending: bool
    var nfcLookupTimer: Option<real>
    var action: Action
    var issued: nat
    var used: seq<Use>

    function Live(): Pending
      reads this
    {
      Pending(if pendingSpoolId > 0 then Some(Spool(pendingSpoolId, spoolSerial)) else None, pendingTag)
    }

    ghost function View(): State
      reads this
    {
      State(Live(), heldByPreload, pendingPhase, pendingTimer, warnTimer, nfcLookupPending, nfcLookupTimer, action,
            issued, used)
    }

    /** Whatever waits has a running timer, the LED shows a phase exactly when a spool waits, a lookup has a running
        timeout, and nothing that waits was used before. */
    ghost predicate Valid()
      reads this
    {
      Inv(View())
    }

    predicate NothingWaits()
      reads this
    {
      Live() == NOTHING && pendingPhase.None?
    }

    constructor ()
      ensures Valid() && View() == START
    {
      pendingSpoolId, spoolSerial, pendingTag := -1, 0, None;
      heldByPreload := NOTHING;
      pendingPhase, pendingTimer, warnTimer := None, None, None;
      nfcLookupPending, nfcLookupTimer := false, None;
      action := Idle;
      issued, used := 0, [];
    }

    // ------------------------------------------------------------------------------------------- LED overlay

    method PendingLedStart(p: Params, now: real)
      modifies this`pendingPhase, this`warnTimer
      ensures View() == LedStarted(old(View()), p, now)
    {
      pendingPhase := Some(Waiting);
      if p.timeout > 0.0 {
        var warn := if WARN_WINDOW < p.timeout / 2.0 then WARN_WINDOW else p.timeout / 2.0;
        warnTimer := Some(now + (p.timeout - warn));
      } else {
        warnTimer := None;
      }
    }

    method PendingLedStop()
      modifies this`pendingPhase, this`warnTimer
      ensures View() == LedStopped(old(View()))
    {
      if pendingPhase.None? {
        return;
      }
      pendingPhase := None;
      warnTimer := None;
    }

    method PendingWarnHandler(now: real)
      requires Valid() && Due(warnTimer, now)
      modifies this`pendingPhase, this`warnTimer
      ensures Valid() && (pendingPhase.Some? <==> Live().spool.Some?) && pendingPhase != Some(Waiting)
      ensures forall p :: View() == Step(old(View()), Event(now, p, WarnTimer))
    {
      if pendingPhase == Some(Waiting) {
        pendingPhase := Some(Expiring);
      }
      warnTimer := None;
    }

    // -------------------------------------------------------------------------------------- pending assignment

    /** A new assignment is a new one however often its spool was assigned before; cancelling one leaves a tag waiting,
        with its timer. */
    method SetPendingSpoolId(p: Params, now: real, id: int)
      requires Valid()
      modifies this
      ensures Valid()
      ensures View() == if id > 0 then SetPending(old(View()), p, now, id) else Cancelled(old(View()), p, now)
      ensures id > 0 ==> Live().spool == Some(Spool(id, old(issued))) && Due(pendingTimer, now + p.timeout)
      ensures id <= 0 ==> Live().spool.None? && pendingPhase.None? && (pendingTimer.Some? <==> pendingTag.Some?)
      ensures used == old(used) && heldByPreload == old(heldByPreload)
    {
      NextSpoolInv(View(), p, now, id);
      if id > 0 {
        Assign(p, now, id);
      } else {
        pendingSpoolId := -1;
        PendingLedStop();
        if pendingTag.Some? {
          pendingTimer := Some(now + p.timeout);
        } else {
          pendingTimer := None;
        }
      }
    }

    /** The branch for a spool. */
    method Assign(p: Params, now: real, id: int)
      requires id > 0
      modifies this
      ensures View() == SetPending(old(View()), p, now, id)
    {
      pendingSpoolId, spoolSerial, issued := id, issued, issued + 1;
      pendingTag := if pendingTag.Some? then Some(pendingTag.value.(metadata := None)) else None;
      pendingTimer := Some(now + p.timeout);
      PendingLedStart(p, now);
    }

    /** Nothing is left that could be applied or expire, and what was applied or is held stays. */
    method ClearPending()
      modifies this`pendingSpoolId, this`pendingTag, this`pendingTimer, this`pendingPhase, this`warnTimer
      ensures View() == Cleared(old(View())) && (old(Valid()) ==> Valid())
      ensures Live() == NOTHING && pendingTimer.None? && pendingPhase.None?
    {
      ghost var was := View();
      if Inv(was) {
        ClearedInv(was, was.held, was.action);
      }
      pendingSpoolId := -1;
      pendingTag := None;
      pendingTimer := None;
      PendingLedStop();
    }

    method PendingTimerHandler(now: real)
      requires Valid() && Due(pendingTimer, now)
      modifies this`pendingSpoolId, this`pendingTag, this`pendingTimer, this`pendingPhase, this`warnTimer
      ensures Valid() && NothingWaits() && used == old(used)
      ensures forall p :: View() == Step(old(View()), Event(now, p, PendingTimer))
    {
      ClearPending();
    }

    method StagePendingTag(p: Params, now: real, uid: string, metadata: Option<string>)
      requires Valid()
      modifies this`pendingTag, this`issued, this`pendingTimer
      ensures Valid() && View() == Staged(old(View()), p, now, uid, metadata)
      ensures forall i | 0 <= i < |used| :: used[i].serial !in Serials(Live())
    {
      StagedInv(View(), p, now, uid, metadata);
      pendingTag := Some(Tag(uid, metadata, issued));
      issued := issued + 1;
      pendingTimer := Some(now + p.timeout);
    }

    /** Applies an assignment, the live one unless another is given; what waits is dropped either way. */
    method CheckPendingFilament(p: Params, gate: int, pending: Option<Pending>)
      requires Valid() && (pending.Some? ==> pending.value == heldByPreload)
      modifies this
      ensures NothingWaits() && heldByPreload == old(heldByPreload)
      ensures UsedOnce(used) && old(used) <= used && (pending.None? ==> Valid())
      ensures forall i | |old(used)| <= i < |used| ::
                used[i].gate == gate && used[i].serial in Serials(if pending.Some? then pending.value else old(Live()))
      ensures View() == Cleared(old(View()).(used := old(used)
                                  + Uses(p, if pending.Some? then pending.value else old(Live()), gate)))
    {
      ghost var was := View();
      var taken := if pending.Some? then pending.value else Live();
      UsesShape(p, taken, gate);
      AddedUses(was, p, taken, gate);
      if pending.None? {
        UsedInv(was, Uses(p, taken, gate), taken, heldByPreload);
      }
      RecordUses(p, taken, gate);
      ClearPending();
    }

    /** The gate maps are told: the spool and the tag that came with it, or the tag alone. */
    method RecordUses(p: Params, taken: Pending, gate: int)
      modifies this`used
      ensures used == old(used) + Uses(p, taken, gate)
    {
      if taken.spool.Some? && p.support != Pull {
        used := used + [Use(taken.spool.value.serial, gate)];
        if taken.tag.Some? {
          used := used + [Use(taken.tag.value.serial, gate)];
        }
      } else if taken.tag.Some? {
        used := used + [Use(taken.tag.value.serial, gate)];
      }
    }

    /** Hands what waits to a preload. */
    method GrabPending() returns (grabbed: Pending)
      requires Valid()
      modifies this`pendingSpoolId, this`pendingTag, this`pendingTimer, this`pendingPhase, this`warnTimer
      ensures grabbed == old(Live()) && View() == Cleared(old(View()))
      ensures Valid() && NothingWaits()
      ensures forall i | 0 <= i < |used| :: used[i].serial !in Serials(grabbed)
    {
      grabbed := Live();
      ClearPending();
    }

    /** At most one use comes of it, by the spool if there is one that may be applied. */
    method CheckPendingBypass(p: Params)
      requires Valid()
      modifies this
      ensures Valid() && NothingWaits() && old(used) <= used && |used| <= |old(used)| + 1
      ensures |used| > |old(used)| ==>
                used[|old(used)|].gate == BYPASS && used[|old(used)|].serial in Serials(old(Live()))
      ensures forall now :: View() == Step(old(View()), Event(now, p, BypassLoad))
    {
      UseStepInv(View(), Event(0.0, p, BypassLoad));
      var taken := GrabPending();
      if taken.spool.Some? && p.support != Pull {
        used := used + [Use(taken.spool.value.serial, BYPASS)];
      } else if taken.tag.Some? && taken.tag.value.metadata.Some? {
        used := used + [Use(taken.tag.value.serial, BYPASS)];
      }
    }

    /** A preload grabs first; what comes in while it runs does not take the place of what it holds. */
    method PreloadStart()
      requires Valid()
      modifies this
      ensures Valid() && NothingWaits() && heldByPreload == old(Live())
      ensures forall now, p :: View() == Step(old(View()), Event(now, p, Grab))
    {
      ClearedInv(View(), View().live, action);
      var grabbed := GrabPending();
      heldByPreload := grabbed;
    }

    /** It applies what it holds at the end, if it gets there. */
    method PreloadDone(p: Params, gate: int)
      requires Valid()
      modifies this
      ensures Valid() && NothingWaits() && heldByPreload == NOTHING
      ensures used == old(used) + Uses(p, old(heldByPreload), gate)
      ensures forall now :: View() == Step(old(View()), Event(now, p, ApplyHeld(gate)))
    {
      UseStepInv(View(), Event(0.0, p, ApplyHeld(gate)));
      CheckPendingFilament(p, gate, Some(heldByPreload));
      heldByPreload := NOTHING;
    }

    method PreloadFailed()
      requires Valid()
      modifies this`heldByPreload
      ensures Valid() && used == old(used) && Live() == old(Live())
      ensures forall now, p :: View() == Step(old(View()), Event(now, p, DropHeld))
    {
      DropInv(View());
      heldByPreload := NOTHING;
    }

    // ------------------------------------------------------------------------------------------------ lookups

    method NfcSetLookupPending(pending: bool, now: real)
      modifies this`nfcLookupPending, this`nfcLookupTimer
      ensures View() == LookupSet(old(View()), pending, now) && (old(Valid()) ==> Valid())
      ensures nfcLookupPending == pending
      ensures pending && !old(nfcLookupPending) ==> Due(nfcLookupTimer, now + LOOKUP_TIMEOUT)
    {
      if pending == nfcLookupPending {
        return;
      }
      nfcLookupPending := pending;
      if pending {
        nfcLookupTimer := Some(now + LOOKUP_TIMEOUT);
      } else {
        nfcLookupTimer := None;
      }
    }

    method NfcLookupTimeoutHandler(now: real)
      requires Valid() && Due(nfcLookupTimer, now)
      modifies this`nfcLookupPending, this`nfcLookupTimer
      ensures Valid() && !nfcLookupPending
      ensures forall p :: View() == Step(old(View()), Event(now, p, LookupTimer))
    {
      NfcSetLookupPending(false, now);
      nfcLookupTimer := None;
    }

    method NextSpoolIdCommand(p: Params, now: real, id: int)
      requires Valid()
      modifies this
      ensures Valid() && !nfcLookupPending
      ensures View() == Step(old(View()), Event(now, p, NextSpoolId(id)))
    {
      if id <= 0 {
        SetPendingSpoolId(p, now, -1);
      } else if p.support != Pull {
        SetPendingSpoolId(p, now, id);
      }
      NfcSetLookupPending(false, now);
    }

    method SharedTagRead(p: Params, now: real, uid: string, metadata: Option<string>, sent: bool)
      requires Valid()
      modifies this
      ensures Valid() && pendingTag == Some(Tag(uid, metadata, old(issued)))
      ensures View() == Step(old(View()), Event(now, p, SharedRead(uid, metadata, sent)))
    {
      StagePendingTag(p, now, uid, metadata);
      if p.support != Off && sent {
        NfcSetLookupPending(true, now);
      }
    }

    // ------------------------------------------------------------------------------------------------ actions

    /** A movement of filament that preload does not make itself drops what waits. */
    method ChangeAction(next: Action) returns (prior: Action)
      requires Valid()
      modifies this
      ensures Valid() && action == next && (next != prior && !Exempt(next) ==> NothingWaits())
      ensures forall now, p :: View() == Step(old(View()), Event(now, p, SetAction(next)))
      ensures prior == old(action)
    {
      ClearedInv(View(), heldByPreload, next);
      prior := action;
      if next == action {
        return;
      }
      action := next;
      if !Exempt(next) {
        ClearPending();
      }
    }

    /** Timers go on running; when they fire they find nothing. */
    method Reset()
      requires Valid()
      modifies this
      ensures Valid() && NothingWaits() && !nfcLookupPending
      ensures forall now, p :: View() == Step(old(View()), Event(now, p, Reinit))
    {
      ReinitInv(View());
      action := Idle;
      pendingSpoolId := -1;
      pendingTag := None;
      nfcLookupPending := false;
      pendingPhase := None;
    }

    // ----------------------------------------------------------------------------------------------- any event

    /** Whatever happens, the object moves as the state machine does and stays valid. */
    method Perform(e: Event)
      requires Valid()
      modifies this
      ensures Valid() && View() == Step(old(View()), e)
    {
      match e.command
      case NextSpoolId(id) => NextSpoolIdCommand(e.p, e.now, id);
      case SharedRead(uid, metadata, sent) => SharedTagRead(e.p, e.now, uid, metadata, sent);
      case Insert(gate) => CheckPendingFilament(e.p, gate, None);
      case BypassLoad => CheckPendingBypass(e.p);
      case Grab => PreloadStart();
      case ApplyHeld(gate) => PreloadDone(e.p, gate);
      case DropHeld => PreloadFailed();
      case SetAction(next) => var _ := ChangeAction(next);
      case Clear => ClearPending();
      case Reinit => Reset();
      case PendingTimer =>
        if Due(pendingTimer, e.now) {
          PendingTimerHandler(e.now);
        }
      case WarnTimer =>
        if Due(warnTimer, e.now) {
          PendingWarnHandler(e.now);
        }
      case LookupTimer =>
        if Due(nfcLookupTimer, e.now) {
          NfcLookupTimeoutHandler(e.now);
        }
    }
  }
}
