/** The commands of the LED frame handler and runs of them: which effects hold on to their LEDs, and how long a colour
    that is set by hand lasts. */
module LedRuns {
  import opened LedFrames

  datatype Handler = Handler(effects: seq<Effect>, leds: LedState, ready: bool, shutdown: bool)

  /** What a stop command names: everything, LEDs of a chain (none listed: the whole chain), or one effect. */
  datatype Selection =
    | Everything
    | OnChain(chain: nat, indices: seq<int>)
    | Only(i: nat)

  datatype Event =
    | Tick(now: real, rendered: nat -> seq<real>)
    | Stop(selection: Selection, fade: real, now: real, later: real, rendered: nat -> seq<real>)
    | Show(i: nat, fade: real, replace: bool, now: real)
    | SetLed(led: Led, color: Color)
    | Shutdown

  predicate Selected(selection: Selection, i: nat, e: Effect) {
    match selection
    case Everything => true
    case OnChain(chain, indices) =>
      (indices == [] && chain in e.chains) || exists k | 0 <= k < |indices| :: Led(chain, indices[k]) in e.leds
    case Only(j) => i == j
  }

  predicate Share(a: Effect, b: Effect) {
    exists led | led in a.leds :: led in b.leds
  }

  function EffectsOf(drawn: seq<Drawn>): (r: seq<Effect>)
    ensures |r| == |drawn| && forall i | 0 <= i < |r| :: r[i] == drawn[i].effect
  {
    seq(|drawn|, i requires 0 <= i < |drawn| => drawn[i].effect)
  }

  function Pass(h: Handler, now: real, rendered: nat -> seq<real>): Handler {
    var drawn := DrawAll(h.effects, now, rendered);
    h.(effects := EffectsOf(drawn), leds := Composed(h.leds, drawn))
  }

  function StopOne(e: Effect, i: nat, selection: Selection, fade: real, now: real): Effect {
    if Selected(selection, i, e) then Stopped(e, fade, now) else e
  }

  function StopSelected(effects: seq<Effect>, selection: Selection, fade: real, now: real): (r: seq<Effect>)
    ensures |r| == |effects| && forall i | 0 <= i < |r| :: r[i] == StopOne(effects[i], i, selection, fade, now)
  {
    seq(|effects|, i requires 0 <= i < |effects| => StopOne(effects[i], i, selection, fade, now))
  }

  /** The effect is named by a stop and owes its black frame after it. */
  predicate Owing(e: Effect, i: nat, selection: Selection, fade: real, now: real) {
    Selected(selection, i, e) && BlanksOnNextFrame(Stopped(e, fade, now))
  }

  /** Whether a stop leaves an effect it named owing its black frame. */
  predicate StopsNow(effects: seq<Effect>, selection: Selection, fade: real, now: real) {
    exists i | 0 <= i < |effects| :: Owing(effects[i], i, selection, fade, now)
  }

  function FlushFrames(h: Handler, now: real, rendered: nat -> seq<real>): Handler {
    if h.shutdown || !h.ready then h else Pass(h, now, rendered)
  }

  /** What starting the effect `shown` does to an effect, the same one or another. */
  function ShowOne(e: Effect, shown: Effect, same: bool, fade: real, replace: bool, now: real): Effect {
    if same then Started(e, fade, now)
    else if replace && Share(shown, e) then Stopped(e, fade, now)
    else e
  }

  function ShowEffect(effects: seq<Effect>, i: nat, fade: real, replace: bool, now: real): (r: seq<Effect>)
    requires i < |effects|
    ensures |r| == |effects|
    ensures forall j | 0 <= j < |r| :: r[j] == ShowOne(effects[j], effects[i], j == i, fade, replace, now)
  {
    seq(|effects|, j requires 0 <= j < |effects| => ShowOne(effects[j], effects[i], j == i, fade, replace, now))
  }

  function ShutDown(effects: seq<Effect>): (r: seq<Effect>)
    ensures |r| == |effects|
    ensures forall i | 0 <= i < |r| :: r[i] == SetEnabled(effects[i], effects[i].runOnShutdown)
  {
    seq(|effects|, i requires 0 <= i < |effects| => SetEnabled(effects[i], effects[i].runOnShutdown))
  }

  function Step(h: Handler, event: Event): Handler {
    match event
    case Tick(now, rendered) => Pass(h, now, rendered)
    case Stop(selection, fade, now, later, rendered) =>
      var stopped := h.(effects := StopSelected(h.effects, selection, fade, now));
      if StopsNow(h.effects, selection, fade, now) then FlushFrames(stopped, later, rendered) else stopped
    case Show(i, fade, replace, now) =>
      if i < |h.effects| then h.(effects := ShowEffect(h.effects, i, fade, replace, now)) else h
    case SetLed(led, color) => if led in h.leds then h.(leds := h.leds[led := color]) else h
    case Shutdown => h.(effects := ShutDown(h.effects), shutdown := true)
  }

  /** After a shutdown exactly the effects that run on shutdown are on, no LED has changed yet, and nothing is flushed
      any more. */
  lemma ShutdownLeaves(h: Handler, now: real, rendered: nat -> seq<real>)
    ensures var after := Step(h, Shutdown);
            && |after.effects| == |h.effects| && after.leds == h.leds
            && (forall i | 0 <= i < |h.effects| :: after.effects[i].enabled == h.effects[i].runOnShutdown)
            && FlushFrames(after, now, rendered) == after
  {
  }

  function Run(h: Handler, events: seq<Event>): Handler
    decreases |events|
  {
    if events == [] then h else Run(Step(h, events[0]), events[1..])
  }

  // ------------------------------------------------------------------------------------ who owns its LEDs

  /** No effect that covers the LED writes it in the next pass. */
  ghost predicate Released(h: Handler, led: Led) {
    forall i | 0 <= i < |h.effects| :: led in h.effects[i].leds ==> !Owns(h.effects[i])
  }

  /** The event enables the effect. */
  predicate Enables(event: Event, i: nat, e: Effect) {
    (event.Show? && event.i == i) || (event.Shutdown? && e.runOnShutdown)
  }

  /** The event neither enables an effect that covers the LED nor sets its colour. */
  ghost predicate LeavesAlone(h: Handler, event: Event, led: Led) {
    && (forall i | 0 <= i < |h.effects| :: led in h.effects[i].leds ==> !Enables(event, i, h.effects[i]))
    && !(event.SetLed? && event.led == led)
  }

  /** An effect writes its LEDs in a pass exactly when it owns them. */
  lemma UpdatesExactlyOwners(e: Effect, now: real, rendered: seq<real>)
    ensures GetFrame(e, now, rendered).update <==> Owns(e)
    ensures !Owns(e) ==> GetFrame(e, now, rendered).effect == e
    ensures Owns(GetFrame(e, now, rendered).effect) <==> e.enabled || e.fadeValue > 0.0
  {
  }

  /** Same effects on the same LEDs. */
  ghost predicate SameShape(a: Handler, b: Handler) {
    && |a.effects| == |b.effects| && a.leds.Keys == b.leds.Keys
    && forall i | 0 <= i < |a.effects| ::
         a.effects[i].leds == b.effects[i].leds && a.effects[i].runOnShutdown == b.effects[i].runOnShutdown
  }

  lemma ComposedKeys(leds: LedState, drawn: seq<Drawn>)
    ensures Composed(leds, drawn).Keys == leds.Keys
  {
    AddAllKeys(Blanked(leds, drawn), Writes(drawn));
  }

  lemma PassShape(h: Handler, now: real, rendered: nat -> seq<real>)
    ensures SameShape(Pass(h, now, rendered), h)
  {
    var drawn := DrawAll(h.effects, now, rendered);
    ComposedKeys(h.leds, drawn);
    forall i | 0 <= i < |h.effects|
      ensures drawn[i].effect.leds == h.effects[i].leds && drawn[i].effect.runOnShutdown == h.effects[i].runOnShutdown
    {
      assert drawn[i] == GetFrame(h.effects[i], now, rendered(i));
    }
    var effects := EffectsOf(drawn);
    assert Pass(h, now, rendered).effects == effects;
  }

  lemma StopShape(h: Handler, selection: Selection, fade: real, now: real)
    ensures SameShape(h.(effects := StopSelected(h.effects, selection, fade, now)), h)
  {
  }

  lemma ShowShape(h: Handler, i: nat, fade: real, replace: bool, now: real)
    requires i < |h.effects|
    ensures SameShape(h.(effects := ShowEffect(h.effects, i, fade, replace, now)), h)
  {
    var effects := ShowEffect(h.effects, i, fade, replace, now);
    forall j | 0 <= j < |h.effects|
      ensures effects[j].leds == h.effects[j].leds && effects[j].runOnShutdown == h.effects[j].runOnShutdown
    {
      assert effects[j] in {h.effects[j], Started(h.effects[j], fade, now), Stopped(h.effects[j], fade, now)};
    }
  }

  lemma StepShape(h: Handler, event: Event)
    ensures SameShape(Step(h, event), h)
  {
    match event
    case Tick(now, rendered) => PassShape(h, now, rendered);
    case Stop(selection, fade, now, later, rendered) =>
      StopShape(h, selection, fade, now);
      PassShape(h.(effects := StopSelected(h.effects, selection, fade, now)), later, rendered);
    case Show(i, fade, replace, now) =>
      if i < |h.effects| { ShowShape(h, i, fade, replace, now); }
    case SetLed(_, _) =>
    case Shutdown =>
  }

  /** A pass writes no LED that no owner covers. */
  lemma PassLeavesReleased(h: Handler, led: Led, now: real, rendered: nat -> seq<real>)
    requires led in h.leds && Released(h, led)
    ensures led in Pass(h, now, rendered).leds && Pass(h, now, rendered).leds[led] == h.leds[led]
  {
    var drawn := DrawAll(h.effects, now, rendered);
    assert !Touched(drawn, led) by {
      if Touched(drawn, led) {
        var i :| 0 <= i < |drawn| && drawn[i].update && led in drawn[i].effect.leds;
        UpdatesExactlyOwners(h.effects[i], now, rendered(i));
      }
    }
    PassComposes(h.leds, drawn, led, 0);
  }

  /** An effect that has let go of its LEDs does not move until something enables it. */
  lemma ReleasedStays(h: Handler, event: Event, i: nat)
    requires i < |h.effects| && !Owns(h.effects[i]) && !Enables(event, i, h.effects[i])
    ensures |Step(h, event).effects| == |h.effects| && Step(h, event).effects[i] == h.effects[i]
  {
    var e := h.effects[i];
    match event
    case Tick(now, rendered) =>
      UpdatesExactlyOwners(e, now, rendered(i));
      assert Pass(h, now, rendered).effects[i] == GetFrame(e, now, rendered(i)).effect;
    case Stop(selection, fade, now, later, rendered) =>
      var stopped := StopSelected(h.effects, selection, fade, now);
      assert stopped[i] == e;
      UpdatesExactlyOwners(e, later, rendered(i));
      assert Pass(h.(effects := stopped), later, rendered).effects[i] == GetFrame(e, later, rendered(i)).effect;
    case Show(j, fade, replace, now) =>
      if j < |h.effects| {
        assert ShowEffect(h.effects, j, fade, replace, now)[i] == e;
      }
    case SetLed(_, _) =>
    case Shutdown =>
      assert Step(h, event).effects[i] == SetEnabled(e, e.runOnShutdown);
  }

  /** What a stop command does to each effect, for every selection and every fade: afterwards an effect named by it
      owns its LEDs exactly when it is fading out, or owes a black frame that could not be flushed; any other effect
      exactly when it is enabled, is fading, or owes a black frame that was not flushed. */
  lemma StopFreesExactly(h: Handler, stop: Event, i: nat)
    requires stop.Stop? && i < |h.effects|
    ensures |Step(h, stop).effects| == |h.effects|
    ensures
      var e := h.effects[i];
      var named := Selected(stop.selection, i, e);
      var after := if named then Stopped(e, stop.fade, stop.now) else e;
      var flushed := StopsNow(h.effects, stop.selection, stop.fade, stop.now) && h.ready && !h.shutdown;
      Owns(Step(h, stop).effects[i]) <==>
      || (e.enabled && !named)
      || (e.fadeValue > 0.0 && (named && e.enabled ==> stop.fade != 0.0))
      || (BlanksOnNextFrame(after) && !flushed)
  {
    var stopped := StopSelected(h.effects, stop.selection, stop.fade, stop.now);
    UpdatesExactlyOwners(stopped[i], stop.later, stop.rendered(i));
  }

  /** Once a stop command returns on a live handler, an effect it named that is not fading writes no LED in any later
      pass, until something enables it. */
  lemma {:induction false} StoppedStaysOff(h: Handler, stop: Event, events: seq<Event>, i: nat)
    requires stop.Stop? && i < |h.effects| && Selected(stop.selection, i, h.effects[i])
    requires h.ready && !h.shutdown
    requires h.effects[i].fadeValue <= 0.0 || (h.effects[i].enabled && stop.fade == 0.0)
    requires forall k | 0 <= k < |events| :: !Enables(events[k], i, h.effects[i])
    ensures |Run(Step(h, stop), events).effects| == |h.effects|
    ensures !Owns(Run(Step(h, stop), events).effects[i])
  {
    StopFreesExactly(h, stop, i);
    StepShape(h, stop);
    OffStaysOff(Step(h, stop), events, i);
  }

  lemma {:induction false} OffStaysOff(h: Handler, events: seq<Event>, i: nat)
    requires i < |h.effects| && !Owns(h.effects[i])
    requires forall k | 0 <= k < |events| :: !Enables(events[k], i, h.effects[i])
    ensures |Run(h, events).effects| == |h.effects|
    ensures Run(h, events).effects[i] == h.effects[i]
    decreases |events|
  {
    if events != [] {
      ReleasedStays(h, events[0], i);
      OffStaysOff(Step(h, events[0]), events[1..], i);
    }
  }

  // ------------------------------------------------------------------------------- colours that are set by hand

  lemma StepKeepsColour(h: Handler, event: Event, led: Led)
    requires led in h.leds && Released(h, led) && LeavesAlone(h, event, led)
    ensures led in Step(h, event).leds && Step(h, event).leds[led] == h.leds[led]
    ensures Released(Step(h, event), led)
    ensures SameShape(Step(h, event), h)
  {
    StepShape(h, event);
    forall i | 0 <= i < |h.effects| && led in h.effects[i].leds
      ensures Step(h, event).effects[i] == h.effects[i]
    {
      ReleasedStays(h, event, i);
    }
    match event
    case Tick(now, rendered) => PassLeavesReleased(h, led, now, rendered);
    case Stop(selection, fade, now, later, rendered) =>
      var stopped := h.(effects := StopSelected(h.effects, selection, fade, now));
      PassLeavesReleased(stopped, led, later, rendered);
    case Show(_, _, _, _) =>
    case SetLed(_, _) =>
    case Shutdown =>
  }

  /** A colour on an LED that no owner covers lasts through any run of passes and commands that neither enables an
      effect on that LED nor sets it again. */
  lemma {:induction false} ColourSurvives(h: Handler, events: seq<Event>, led: Led)
    requires led in h.leds && Released(h, led)
    requires forall k | 0 <= k < |events| :: LeavesAlone(h, events[k], led)
    ensures led in Run(h, events).leds && Run(h, events).leds[led] == h.leds[led]
    decreases |events|
  {
    if events != [] {
      StepKeepsColour(h, events[0], led);
      ColourSurvives(Step(h, events[0]), events[1..], led);
    }
  }

  /** Sets a colour and runs a pass. */
  function Repainted(h: Handler, led: Led, color: Color, now: real, rendered: nat -> seq<real>): Color
    requires led in h.leds
  {
    var after := Step(Step(h, SetLed(led, color)), Tick(now, rendered));
    if led in after.leds then after.leds[led] else color
  }

  /** A colour that can be set: every channel from 0 to 1. */
  predicate Settable(c: Color) {
    forall k | 0 <= k < COLORS :: 0.0 <= c[k] <= 1.0
  }

  /** Where an owner covers the LED, the colour set before is without effect. */
  lemma OwnerOverwrites(h: Handler, led: Led, i: nat, c: Color, now: real, rendered: nat -> seq<real>)
    requires led in h.leds && i < |h.effects| && led in h.effects[i].leds && Owns(h.effects[i])
    ensures Repainted(h, led, c, now, rendered)[0]
            == Min(1.0, Sum(Writes(DrawAll(h.effects, now, rendered)), led, 0))
  {
    var painted := Step(h, SetLed(led, c));
    var drawn := DrawAll(h.effects, now, rendered);
    UpdatesExactlyOwners(h.effects[i], now, rendered(i));
    assert drawn[i].update && led in drawn[i].effect.leds;
    PassComposes(painted.leds, drawn, led, 0);
  }

  /** One of two colours is not the one the owner leaves there. */
  lemma LostColour(h: Handler, led: Led, i: nat, now: real, rendered: nat -> seq<real>) returns (c: Color)
    requires led in h.leds && i < |h.effects| && led in h.effects[i].leds && Owns(h.effects[i])
    ensures Settable(c) && Repainted(h, led, c, now, rendered) != c
  {
    var left := Min(1.0, Sum(Writes(DrawAll(h.effects, now, rendered)), led, 0));
    c := OtherColour(left);
    OwnerOverwrites(h, led, i, c, now, rendered);
  }

  lemma OtherColour(x: real) returns (c: Color)
    ensures Settable(c) && c[0] != x
  {
    c := if x == 0.0 then [1.0, 0.0, 0.0, 0.0] else BLACK;
  }

  lemma ReleasedKeeps(h: Handler, led: Led, c: Color, now: real, rendered: nat -> seq<real>)
    requires led in h.leds && Released(h, led)
    ensures Repainted(h, led, c, now, rendered) == c
  {
    PassLeavesReleased(Step(h, SetLed(led, c)), led, now, rendered);
  }

  /** Every colour that can be set survives the next pass exactly when no effect that covers the LED owns it. */
  lemma ColourSurvivesExactly(h: Handler, led: Led, now: real, rendered: nat -> seq<real>)
    requires led in h.leds
    ensures (forall c: Color | Settable(c) :: Repainted(h, led, c, now, rendered) == c) <==> Released(h, led)
  {
    if Released(h, led) {
      forall c: Color | Settable(c) ensures Repainted(h, led, c, now, rendered) == c {
        ReleasedKeeps(h, led, c, now, rendered);
      }
    } else {
      var i :| 0 <= i < |h.effects| && led in h.effects[i].leds && Owns(h.effects[i]);
      var c := LostColour(h, led, i, now, rendered);
    }
  }

  /** After the stop nothing on the LED will be enabled, fading or owing a black frame. */
  ghost predicate StopFrees(h: Handler, stop: Event, led: Led)
    requires stop.Stop?
  {
    forall i | 0 <= i < |h.effects| && led in h.effects[i].leds :: FreedBy(h, stop, i)
  }

  predicate FreedBy(h: Handler, stop: Event, i: nat)
    requires stop.Stop? && i < |h.effects|
  {
    var e := h.effects[i];
    if Selected(stop.selection, i, e) then e.fadeValue <= 0.0 || (e.enabled && stop.fade == 0.0)
    else
      && !e.enabled && e.fadeValue <= 0.0
      && (e.next.Never? || StopsNow(h.effects, stop.selection, stop.fade, stop.now))
  }

  lemma StopReleases(h: Handler, stop: Event, led: Led)
    requires stop.Stop? && h.ready && !h.shutdown
    ensures Released(Step(h, stop), led) <==> StopFrees(h, stop, led)
  {
    var freed := Step(h, stop);
    StepShape(h, stop);
    forall i | 0 <= i < |h.effects| ensures Owns(freed.effects[i]) <==> !FreedBy(h, stop, i) {
      StopFreesExactly(h, stop, i);
    }
  }

  /** Stop, set a colour, carry on: the colour stays if the stop frees the LED. */
  lemma ColourAfterStop(h: Handler, stop: Event, led: Led, color: Color, events: seq<Event>)
    requires stop.Stop? && led in h.leds && h.ready && !h.shutdown && StopFrees(h, stop, led)
    requires forall k | 0 <= k < |events| :: LeavesAlone(h, events[k], led)
    ensures
      var after := Run(Step(Step(h, stop), SetLed(led, color)), events);
      led in after.leds && after.leds[led] == color
  {
    StopReleases(h, stop, led);
    StepShape(h, stop);
    ColourOnReleased(h, Step(h, stop), led, color, events);
  }

  lemma PaintedStaysReleased(h: Handler, led: Led, color: Color)
    requires led in h.leds && Released(h, led)
    ensures
      var painted := h.(leds := h.leds[led := color]);
      Step(h, SetLed(led, color)) == painted && Released(painted, led) && painted.leds[led] == color
  {
  }

  lemma SameLeavesAlone(a: Handler, b: Handler, event: Event, led: Led)
    requires |a.effects| == |b.effects| && LeavesAlone(a, event, led)
    requires forall i | 0 <= i < |a.effects| ::
               a.effects[i].leds == b.effects[i].leds && a.effects[i].runOnShutdown == b.effects[i].runOnShutdown
    ensures LeavesAlone(b, event, led)
  {
  }

  lemma ColourOnReleased(h: Handler, freed: Handler, led: Led, color: Color, events: seq<Event>)
    requires SameShape(freed, h) && led in h.leds && Released(freed, led)
    requires forall k | 0 <= k < |events| :: LeavesAlone(h, events[k], led)
    ensures
      var after := Run(Step(freed, SetLed(led, color)), events);
      led in after.leds && after.leds[led] == color
  {
    var painted := freed.(leds := freed.leds[led := color]);
    PaintedStaysReleased(freed, led, color);
    forall k | 0 <= k < |events| ensures LeavesAlone(painted, events[k], led) {
      SameLeavesAlone(h, painted, events[k], led);
    }
    ColourSurvives(painted, events, led);
  }

  /** That the other effects on an LED are neither enabled nor fading is not enough. An effect displaced by the start
      of another owes its black frame; a stop of a third effect that is off already flushes nothing, and the next pass
      wipes the colour set in between. */
  lemma DisplacedEffectWipesColour(led: Led, other: Led, rendered: nat -> seq<real>)
    requires led != other
    ensures
      var painted := PaintedAfterDisplacing(led, other, rendered);
      && |painted.effects| == 3
      && (forall i | 0 <= i < 3 && led in painted.effects[i].leds ::
            !painted.effects[i].enabled && painted.effects[i].fadeValue <= 0.0)
      && led in painted.leds && painted.leds[led] == WHITE
      && led in Step(painted, Tick(6.0, rendered)).leds
      && Step(painted, Tick(6.0, rendered)).leds[led] != WHITE
  {
    var h := ThreeEffects(led, other);
    assert other in h.effects[0].leds && Share(h.effects[1], h.effects[0]);
    assert !Share(h.effects[1], h.effects[2]);
    var displaced := ShowEffect(h.effects, 1, 0.0, true, 5.0);
    assert displaced[0] == Stopped(h.effects[0], 0.0, 5.0) && displaced[2] == h.effects[2];
    assert Step(h, Show(1, 0.0, true, 5.0)).effects == displaced;
    var stopped := StopSelected(displaced, Only(2), 0.0, 5.0);
    assert stopped == displaced;
    var painted := PaintedAfterDisplacing(led, other, rendered);
    assert !StopsNow(displaced, Only(2), 0.0, 5.0);
    assert painted.effects == displaced;
    var drawn := DrawAll(displaced, 6.0, rendered);
    assert drawn[0] == GetFrame(displaced[0], 6.0, rendered(0));
    assert drawn[1] == GetFrame(displaced[1], 6.0, rendered(1)) && drawn[1].effect.leds == [other];
    assert drawn[2] == GetFrame(displaced[2], 6.0, rendered(2));
    DisplacedContribution(painted.leds, drawn, led);
  }

  const WHITE: Color := [1.0, 1.0, 1.0, 1.0]

  function ThreeEffects(led: Led, other: Led): Handler {
    Handler([Effect([led, other], {}, 1.0, false, true, 0.0, 0.0, 0.0, At(1.0), []),
             Effect([other], {}, 1.0, false, false, 0.0, 0.0, 0.0, Never, []),
             Effect([led], {}, 1.0, false, false, 0.0, 0.0, 0.0, Never, [])],
            map[led := BLACK, other := BLACK], true, false)
  }

  /** The second effect displaces the first, the third is stopped, and the shared LED is set to white. */
  function PaintedAfterDisplacing(led: Led, other: Led, rendered: nat -> seq<real>): Handler {
    var displaced := Step(ThreeEffects(led, other), Show(1, 0.0, true, 5.0));
    Step(Step(displaced, Stop(Only(2), 0.0, 5.0, 5.0, rendered)), SetLed(led, WHITE))
  }

  lemma DisplacedContribution(leds: LedState, drawn: seq<Drawn>, led: Led)
    requires led in leds && |drawn| == 3
    requires drawn[0].update && led in drawn[0].effect.leds && drawn[0].effect.fadeValue == 0.0
    requires led !in drawn[1].effect.leds && !drawn[2].update
    ensures Composed(leds, drawn).Keys == leds.Keys && Composed(leds, drawn)[led][0] == 0.0
  {
    assert Touched(drawn, led);
    PassComposes(leds, drawn, led, 0);
    WritesSum(drawn, led, 0);
    UnfadedSum(drawn[0].effect, |drawn[0].effect.leds|, led);
    OtherSum(drawn[1].effect, |drawn[1].effect.leds|, led);
    var second, third := drawn[1..], drawn[2..];
    assert second[1..] == third && third[1..] == [];
    assert EffectsSum(third, led, 0) == 0.0;
    assert EffectsSum(second, led, 0) == 0.0;
    assert EffectsSum(drawn, led, 0) == 0.0;
  }

  lemma {:induction false} UnfadedSum(e: Effect, n: nat, led: Led)
    requires n <= |e.leds| && e.fadeValue == 0.0
    ensures Sum(EffectWrites(e, n), led, 0) == 0.0
  {
    if n > 0 {
      UnfadedSum(e, n - 1, led);
      assert EffectWrites(e, n)[..n - 1] == EffectWrites(e, n - 1);
    }
  }

  lemma {:induction false} OtherSum(e: Effect, n: nat, led: Led)
    requires n <= |e.leds| && led !in e.leds
    ensures Sum(EffectWrites(e, n), led, 0) == 0.0
  {
    if n > 0 {
      OtherSum(e, n - 1, led);
      assert EffectWrites(e, n)[..n - 1] == EffectWrites(e, n - 1);
    }
  }
}
