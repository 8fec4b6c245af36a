/** The frame handler and its effects as objects. Each method is proved to do to them what the command does to the
    handler they stand for. */
module LedObjects {
  import opened LedFrames
  import opened LedRuns

  class LedEffect {
    const leds: seq<Led>
    const chains: set<nat>
    const frameRate: real
    const runOnShutdown: bool
    var enabled: bool
    var fadeValue: real
    var fadeTime: real
    var fadeEnd: real
    var nextEvent: Time
    var frame: seq<real>

    ghost function View(): Effect
      reads this
    {
      Effect(leds, chains, frameRate, runOnShutdown, enabled, fadeValue, fadeTime, fadeEnd, nextEvent, frame)
    }

    constructor (leds: seq<Led>, chains: set<nat>, frameRate: real, autoStart: bool, runOnShutdown: bool)
      ensures View() == Effect(leds, chains, frameRate, runOnShutdown, autoStart, 0.0, 0.0, 0.0,
                               if autoStart then NOW else Never, [])
    {
      this.leds := leds;
      this.chains := chains;
      this.frameRate := frameRate;
      this.runOnShutdown := runOnShutdown;
      enabled, fadeValue, fadeTime, fadeEnd := autoStart, 0.0, 0.0, 0.0;
      nextEvent := if autoStart then NOW else Never;
      frame := [];
    }

    /** An effect that owns its LEDs writes them; one that only owes its black frame owns them no longer. */
    method GetFrame(now: real, rendered: seq<real>) returns (update: bool)
      modifies this
      ensures update <==> old(Owns(View()))
      ensures !update ==> View() == old(View())
      ensures update ==> (Owns(View()) <==> old(enabled || fadeValue > 0.0))
      ensures update && !Owns(View()) ==> frame == Zeros(COLORS * |leds|)
      ensures Drawn(View(), update) == LedFrames.GetFrame(old(View()), now, rendered)
    {
      if !enabled && fadeValue <= 0.0 {
        if nextEvent.At? {
          nextEvent := Never;
          frame := Zeros(COLORS * |leds|);
          update := true;
        } else {
          update := false;
        }
      } else {
        update := true;
        if nextEvent.At? && now >= nextEvent.t {
          nextEvent := At(now + frameRate);
          frame := rendered;
          var remaining := 0.0;
          if fadeEnd > now && fadeTime > 0.0 {
            remaining := (fadeEnd - now) / fadeTime;
          }
          fadeValue := if enabled then 1.0 - remaining else remaining;
        }
      }
    }

    /** Whatever is turned on or off is written in the next pass; turning off what is off changes nothing. */
    method SetEnabled(state: bool)
      modifies this
      ensures enabled == state && (state == old(enabled) ==> View() == old(View()))
      ensures state != old(enabled) ==> Owns(View()) && nextEvent == NOW
      ensures View() == LedFrames.SetEnabled(old(View()), state)
    {
      if enabled != state {
        enabled := state;
        nextEvent := NOW;
      }
    }

    /** Without a fade time nothing fades any more. */
    method SetFadeTime(fade: real, now: real)
      modifies this
      ensures fade == 0.0 ==> (Owns(View()) <==> enabled || nextEvent.At?)
      ensures fade != 0.0 ==> (Owns(View()) <==> old(Owns(View())))
      ensures View() == LedFrames.SetFadeTime(old(View()), fade, now)
    {
      fadeTime := fade;
      fadeEnd := now + fade;
      if fadeTime == 0.0 {
        fadeValue := 0.0;
      }
    }

    /** The stop sequence shared by the stop commands and a displacing start. */
    method Stop(fade: real, now: real)
      modifies this
      ensures View() == Stopped(old(View()), fade, now)
    {
      if enabled {
        SetFadeTime(fade, now);
      }
      SetEnabled(false);
    }

    /** The next frame, whenever it comes, is written and is the last one. */
    method Owes() returns (owes: bool)
      ensures owes <==> BlanksOnNextFrame(View())
      ensures forall now, rendered ::
                var next := LedFrames.GetFrame(View(), now, rendered);
                owes <==> next.update && !Owns(next.effect)
    {
      forall now, rendered
        ensures var next := LedFrames.GetFrame(View(), now, rendered);
                BlanksOnNextFrame(View()) <==> next.update && !Owns(next.effect)
      {
        UpdatesExactlyOwners(View(), now, rendered);
      }
      owes := !enabled && fadeValue <= 0.0 && nextEvent.At?;
    }
  }

  ghost function Views(effects: seq<LedEffect>): (r: seq<Effect>)
    reads effects
    ensures |r| == |effects| && forall i | 0 <= i < |r| :: r[i] == effects[i].View()
  {
    seq(|effects|, i requires 0 <= i < |effects| reads effects => effects[i].View())
  }

  class FrameHandler {
    const effects: seq<LedEffect>
    var leds: LedState
    var ready: bool
    var shutdown: bool

    ghost predicate Valid()
      reads this
    {
      && (forall i, j | 0 <= i < j < |effects| :: effects[i] != effects[j])
      && forall i, led | 0 <= i < |effects| && led in effects[i].leds :: led in leds
    }

    ghost function View(): Handler
      reads this, effects
    {
      Handler(Views(effects), leds, ready, shutdown)
    }

    constructor (effects: seq<LedEffect>, leds: LedState)
      requires forall i, j | 0 <= i < j < |effects| :: effects[i] != effects[j]
      requires forall i, led | 0 <= i < |effects| && led in effects[i].leds :: led in leds
      ensures Valid() && View() == Handler(Views(effects), leds, false, false) && this.effects == effects
    {
      this.effects := effects;
      this.leds := leds;
      ready := false;
      shutdown := false;
    }

    method HandleReady()
      modifies this
      ensures leds == old(leds) && ready && !shutdown
    {
      shutdown := false;
      ready := true;
    }

    /** Asks every effect for its frame. */
    method Draw(now: real, rendered: nat -> seq<real>) returns (updates: seq<bool>)
      requires Valid()
      modifies effects
      ensures |updates| == |effects|
      ensures forall i | 0 <= i < |effects| ::
                Drawn(effects[i].View(), updates[i]) == DrawAll(old(Views(effects)), now, rendered)[i]
    {
      updates := [];
      var n := 0;
      while n < |effects|
        invariant 0 <= n <= |effects| && |updates| == n
        invariant forall i | 0 <= i < n ::
                    Drawn(effects[i].View(), updates[i]) == DrawAll(old(Views(effects)), now, rendered)[i]
        invariant forall i | n <= i < |effects| :: effects[i].View() == old(effects[i].View())
      {
        var update := effects[n].GetFrame(now, rendered(n));
        updates := updates + [update];
        n := n + 1;
      }
    }

    /** Zeroes the LEDs of updating effects. */
    method Blank(updates: seq<bool>, ghost drawn: seq<Drawn>)
      requires Valid() && |updates| == |effects| == |drawn|
      requires forall i | 0 <= i < |effects| :: drawn[i] == Drawn(effects[i].View(), updates[i])
      modifies this`leds
      ensures Valid() && leds == Blanked(old(leds), drawn)
    {
      var n := 0;
      assert Blanked(leds, drawn[..0]) == leds;
      while n < |effects|
        invariant 0 <= n <= |effects| && Valid()
        invariant leds == Blanked(old(leds), drawn[..n])
      {
        BlankedStep(old(leds), drawn, n);
        if updates[n] {
          BlankEffect(effects[n].leds, old(leds), drawn[..n]);
        }
        n := n + 1;
      }
      assert drawn[..n] == drawn;
    }

    method BlankEffect(more: seq<Led>, ghost start: LedState, ghost drawn: seq<Drawn>)
      requires leds == Blanked(start, drawn)
      requires forall led | led in more :: led in leds
      modifies this`leds
      ensures leds == PartlyBlanked(start, drawn, more)
    {
      NoneBlanked(start, drawn);
      var k := 0;
      while k < |more|
        invariant 0 <= k <= |more| && leds.Keys == start.Keys
        invariant leds == PartlyBlanked(start, drawn, more[..k])
      {
        OneBlanked(start, drawn, more, k);
        leds := leds[more[k] := BLACK];
        k := k + 1;
      }
      assert more[..k] == more;
    }

    /** Adds up the contributions of updating effects. */
    method Add(updates: seq<bool>, ghost drawn: seq<Drawn>)
      requires Valid() && |updates| == |effects| == |drawn|
      requires forall i | 0 <= i < |effects| :: drawn[i] == Drawn(effects[i].View(), updates[i])
      modifies this`leds
      ensures leds == AddAll(old(leds), Writes(drawn))
    {
      var n := 0;
      while n < |effects|
        invariant 0 <= n <= |effects|
        invariant leds.Keys == old(leds).Keys
        invariant leds == AddAll(old(leds), Writes(drawn[..n]))
      {
        WritesOneMore(drawn, n);
        if updates[n] {
          AddEffect(effects[n], old(leds), Writes(drawn[..n]));
        }
        n := n + 1;
      }
      assert drawn[..n] == drawn;
    }

    method AddEffect(e: LedEffect, ghost start: LedState, ghost written: seq<LedWrite>)
      requires leds == AddAll(start, written) && leds.Keys == start.Keys
      requires forall led | led in e.leds :: led in leds
      modifies this`leds
      ensures leds == AddAll(start, written + EffectWrites(e.View(), |e.leds|)) && leds.Keys == start.Keys
    {
      var k := 0;
      assert written + EffectWrites(e.View(), 0) == written;
      while k < |e.leds|
        invariant 0 <= k <= |e.leds|
        invariant leds.Keys == start.Keys
        invariant leds == AddAll(start, written + EffectWrites(e.View(), k))
      {
        var led := e.leds[k];
        AddOneMore(start, written, e.View(), k);
        leds := leds[led := AddColor(leds[led], ColorData(FramePart(e.frame, k), e.fadeValue))];
        k := k + 1;
      }
    }

    /** One frame pass. */
    method GetFrames(now: real, rendered: nat -> seq<real>)
      requires Valid()
      modifies this`leds, effects
      ensures Valid() && View() == Pass(old(View()), now, rendered)
    {
      ghost var drawn := DrawAll(Views(effects), now, rendered);
      var updates := Draw(now, rendered);
      Compose(updates, drawn);
      assert Views(effects) == EffectsOf(drawn);
    }

    /** Zeroes the LEDs of updating effects, then adds all contributions. */
    method Compose(updates: seq<bool>, ghost drawn: seq<Drawn>)
      requires Valid() && |updates| == |effects| == |drawn|
      requires forall i | 0 <= i < |effects| :: drawn[i] == Drawn(effects[i].View(), updates[i])
      modifies this`leds
      ensures Valid() && leds == Composed(old(leds), drawn)
    {
      Blank(updates, drawn);
      Add(updates, drawn);
      ComposedKeys(old(leds), drawn);
    }

    method FlushFrames(now: real, rendered: nat -> seq<real>)
      requires Valid()
      modifies this`leds, effects
      ensures Valid() && View() == LedRuns.FlushFrames(old(View()), now, rendered)
    {
      if shutdown || !ready {
        return;
      }
      GetFrames(now, rendered);
    }

    /** Stops the effects that a selection names and hands their LEDs back. */
    method StopLedEffects(selection: Selection, fade: real, now: real, later: real, rendered: nat -> seq<real>)
      requires Valid()
      modifies this`leds, effects
      ensures Valid() && View() == Step(old(View()), LedRuns.Stop(selection, fade, now, later, rendered))
    {
      ghost var before := Views(effects);
      var stoppedNow := StopNamed(selection, fade, now);
      assert Views(effects) == StopSelected(before, selection, fade, now);
      if stoppedNow {
        FlushFrames(later, rendered);
      }
    }

    /** Stops the effects that a selection names and tells whether one of them owes its black frame. */
    method StopNamed(selection: Selection, fade: real, now: real) returns (stoppedNow: bool)
      requires Valid()
      modifies effects
      ensures forall i | 0 <= i < |effects| ::
                effects[i].View() == StopOne(old(effects[i].View()), i, selection, fade, now)
      ensures stoppedNow <==> StopsNow(old(Views(effects)), selection, fade, now)
    {
      stoppedNow := false;
      ghost var before := Views(effects);
      var n := 0;
      while n < |effects|
        invariant 0 <= n <= |effects|
        invariant forall i | 0 <= i < n :: effects[i].View() == StopOne(before[i], i, selection, fade, now)
        invariant forall i | n <= i < |effects| :: effects[i].View() == before[i]
        invariant stoppedNow <==> exists i | 0 <= i < n :: Owing(before[i], i, selection, fade, now)
      {
        assert effects[n].View() == before[n];
        var owing := StopIfNamed(effects[n], n, selection, fade, now);
        stoppedNow := stoppedNow || owing;
        n := n + 1;
      }
    }

    method StopIfNamed(e: LedEffect, i: nat, selection: Selection, fade: real, now: real) returns (owing: bool)
      modifies e
      ensures e.View() == StopOne(old(e.View()), i, selection, fade, now)
      ensures owing <==> Owing(old(e.View()), i, selection, fade, now)
    {
      owing := false;
      var stop := Names(selection, i, e);
      if stop {
        e.Stop(fade, now);
        owing := e.Owes();
      }
    }

    method Names(selection: Selection, i: nat, e: LedEffect) returns (named: bool)
      ensures named <==> Selected(selection, i, e.View())
    {
      match selection
      case Everything => named := true;
      case Only(j) => named := i == j;
      case OnChain(chain, indices) =>
        if indices == [] && chain in e.chains {
          return true;
        }
        named := false;
        for k := 0 to |indices|
          invariant named <==> exists m | 0 <= m < k :: Led(chain, indices[m]) in e.leds
        {
          if Led(chain, indices[k]) in e.leds {
            named := true;
          }
        }
    }

    /** Starts an effect, displacing those it shares LEDs with when asked to. */
    method SetLedEffect(i: nat, fade: real, replace: bool, now: real)
      requires Valid() && i < |effects|
      modifies effects
      ensures View() == Step(old(View()), Show(i, fade, replace, now))
    {
      ghost var before := Views(effects);
      if replace {
        Displace(i, fade, now);
      }
      StartEffect(effects[i], fade, now);
      assert forall j | 0 <= j < |effects| ::
          effects[j].View() == ShowOne(before[j], before[i], j == i, fade, replace, now);
      assert Views(effects) == ShowEffect(before, i, fade, replace, now);
    }

    method StartEffect(e: LedEffect, fade: real, now: real)
      modifies e
      ensures e.View() == Started(old(e.View()), fade, now)
    {
      if !e.enabled {
        e.SetFadeTime(fade, now);
      }
      e.SetEnabled(true);
    }

    method Displace(i: nat, fade: real, now: real)
      requires Valid() && i < |effects|
      modifies effects
      ensures forall j | 0 <= j < |effects| :: effects[j].View() ==
                if j != i && Share(old(effects[i].View()), old(effects[j].View()))
                then Stopped(old(effects[j].View()), fade, now) else old(effects[j].View())
    {
      var mine := effects[i].leds;
      ghost var before := Views(effects);
      var k := 0;
      while k < |mine|
        invariant 0 <= k <= |mine|
        invariant forall j | 0 <= j < |effects| :: effects[j].View() == Displaced(before, i, j, mine[..k], fade, now)
      {
        var n := 0;
        while n < |effects|
          invariant 0 <= n <= |effects|
          invariant forall j | 0 <= j < n :: effects[j].View() == Displaced(before, i, j, mine[..k + 1], fade, now)
          invariant forall j | n <= j < |effects| :: effects[j].View() == Displaced(before, i, j, mine[..k], fade, now)
        {
          assert effects[n].View() == Displaced(before, i, n, mine[..k], fade, now);
          MoreDisplaced(before, i, n, mine, k, fade, now);
          if n != i && mine[k] in effects[n].leds {
            effects[n].Stop(fade, now);
          }
          n := n + 1;
        }
        k := k + 1;
      }
      assert mine[..k] == mine;
    }

    method SetLed(led: Led, color: Color)
      requires Valid()
      modifies this`leds
      ensures Valid() && View() == Step(old(View()), LedRuns.SetLed(led, color))
    {
      if led in leds {
        leds := leds[led := color];
      }
    }

    method HandleShutdown()
      requires Valid()
      modifies this`shutdown, effects
      ensures View() == Step(old(View()), Shutdown)
    {
      shutdown := true;
      ghost var before := Views(effects);
      var n := 0;
      while n < |effects|
        invariant 0 <= n <= |effects| && shutdown && leds == old(leds) && ready == old(ready)
        invariant forall i | 0 <= i < n ::
                    effects[i].View() == LedFrames.SetEnabled(before[i], before[i].runOnShutdown)
        invariant forall i | n <= i < |effects| :: effects[i].View() == before[i]
      {
        assert effects[n].View() == before[n];
        effects[n].SetEnabled(effects[n].runOnShutdown);
        n := n + 1;
      }
      assert Views(effects) == Step(old(View()), Shutdown).effects;
    }
  }

  /** The LEDs after the first effects and some more LEDs have been zeroed. */
  ghost function PartlyBlanked(leds: LedState, drawn: seq<Drawn>, more: seq<Led>): LedState {
    map led | led in leds :: if Touched(drawn, led) || led in more then BLACK else leds[led]
  }

  lemma NoneBlanked(leds: LedState, drawn: seq<Drawn>)
    ensures PartlyBlanked(leds, drawn, []) == Blanked(leds, drawn)
  {
  }

  lemma OneBlanked(leds: LedState, drawn: seq<Drawn>, more: seq<Led>, k: nat)
    requires k < |more| && more[k] in leds
    ensures PartlyBlanked(leds, drawn, more[..k + 1]) == PartlyBlanked(leds, drawn, more[..k])[more[k] := BLACK]
  {
    assert more[..k + 1] == more[..k] + [more[k]];
    forall led | led in leds
      ensures (Touched(drawn, led) || led in more[..k + 1])
              <==> (Touched(drawn, led) || led in more[..k] || led == more[k])
    {
    }
  }

  lemma BlankedStep(leds: LedState, drawn: seq<Drawn>, n: nat)
    requires n < |drawn|
    ensures Blanked(leds, drawn[..n + 1]) ==
            if drawn[n].update then PartlyBlanked(leds, drawn[..n], drawn[n].effect.leds) else Blanked(leds, drawn[..n])
  {
    forall led
      ensures Touched(drawn[..n + 1], led) <==>
              Touched(drawn[..n], led) || (drawn[n].update && led in drawn[n].effect.leds)
    {
      if Touched(drawn[..n], led) {
        var i :| 0 <= i < n && drawn[..n][i].update && led in drawn[..n][i].effect.leds;
        assert drawn[..n + 1][i] == drawn[..n][i];
      }
      if drawn[n].update && led in drawn[n].effect.leds {
        assert drawn[..n + 1][n] == drawn[n];
      }
      if Touched(drawn[..n + 1], led) {
        var i :| 0 <= i < n + 1 && drawn[..n + 1][i].update && led in drawn[..n + 1][i].effect.leds;
        if i < n {
          assert drawn[..n][i] == drawn[..n + 1][i];
        }
      }
    }
  }

  lemma WritesOneMore(drawn: seq<Drawn>, n: nat)
    requires n < |drawn|
    ensures Writes(drawn[..n + 1]) ==
            if drawn[n].update then Writes(drawn[..n]) + EffectWrites(drawn[n].effect, |drawn[n].effect.leds|)
            else Writes(drawn[..n])
  {
    assert drawn[..n + 1][..n] == drawn[..n];
  }

  lemma AddOneMore(leds: LedState, written: seq<LedWrite>, e: Effect, k: nat)
    requires k < |e.leds|
    ensures AddAll(leds, written + EffectWrites(e, k + 1))
         == AddWrite(AddAll(leds, written + EffectWrites(e, k)), WriteOf(e, k))
  {
    var before, after := written + EffectWrites(e, k), written + EffectWrites(e, k + 1);
    assert after[..|after| - 1] == before;
    assert after[|after| - 1] == WriteOf(e, k);
  }

  /** The `j`-th effect after the `i`-th has displaced those that share one of its first LEDs. */
  ghost function Displaced(effects: seq<Effect>, i: nat, j: nat, leds: seq<Led>, fade: real, now: real): Effect
    requires j < |effects|
  {
    if j != i && exists led | led in leds :: led in effects[j].leds then Stopped(effects[j], fade, now) else effects[j]
  }

  lemma MoreDisplaced(effects: seq<Effect>, i: nat, j: nat, leds: seq<Led>, k: nat, fade: real, now: real)
    requires j < |effects| && k < |leds|
    ensures Displaced(effects, i, j, leds[..k + 1], fade, now) ==
            if j != i && leds[k] in effects[j].leds 
            then Stopped(Displaced(effects, i, j, leds[..k], fade, now), fade, now)
            else Displaced(effects, i, j, leds[..k], fade, now)
  {
    assert leds[..k + 1] == leds[..k] + [leds[k]];
  }
}
