/** The LED frame compositor as functions: effects over shared LEDs, frame passes, and the commands between them. */
module LedFrames {

  const COLORS: nat := 4

  datatype Led = Led(chain: nat, index: int)

  /** One value a channel. */
  type Color = c: seq<real> | |c| == COLORS witness [0.0, 0.0, 0.0, 0.0]

  type LedState = map<Led, Color>

  const BLACK: Color := [0.0, 0.0, 0.0, 0.0]

  /** A timer deadline. */
  datatype Time =
    | At(t: real)
    | Never

  const NOW := At(0.0)

  datatype Effect = Effect(
    leds: seq<Led>,
    chains: set<nat>,
    frameRate: real,
    runOnShutdown: bool,
    enabled: bool,
    fadeValue: real,
    fadeTime: real,
    fadeEnd: real,
    next: Time,
    frame: seq<real>)

  function ClampUnit(x: real): real {
    if x < 0.0 then 0.0 else if x > 1.0 then 1.0 else x
  }

  function Min(a: real, b: real): real {
    if b < a then b else a
  }

  function Channel(colors: seq<real>, k: nat, fade: real): (x: real)
    ensures 0.0 <= x <= 1.0
  {
    if k < |colors| then ClampUnit(colors[k] * ClampUnit(fade)) else 0.0
  }

  /** The colour of one LED: faded, padded with zeros and cut to the channels, clamped. */
  function ColorData(colors: seq<real>, fade: real): (c: Color)
    ensures forall k | 0 <= k < COLORS :: 0.0 <= c[k] <= 1.0
  {
    seq(COLORS, k requires 0 <= k < COLORS => Channel(colors, k, fade))
  }

  /** The part of a frame that belongs to the `i`-th LED. */
  function FramePart(frame: seq<real>, i: nat): seq<real> {
    if i * COLORS + COLORS <= |frame| then frame[i * COLORS..i * COLORS + COLORS]
    else if i * COLORS <= |frame| then frame[i * COLORS..]
    else []
  }

  function Zeros(n: nat): seq<real> {
    seq(n, _ => 0.0)
  }

  // ------------------------------------------------------------------------------------------ one effect

  datatype Drawn = Drawn(effect: Effect, update: bool)

  /** `getFrame`: `rendered` is what the layers blend to, should they be asked. */
  function GetFrame(e: Effect, now: real, rendered: seq<real>): Drawn {
    if !e.enabled && e.fadeValue <= 0.0 then
      if e.next.At? then Drawn(e.(next := Never, frame := Zeros(COLORS * |e.leds|)), true)
      else Drawn(e, false)
    else if e.next.At? && now >= e.next.t then
      var remaining := if e.fadeEnd > now && e.fadeTime > 0.0 then (e.fadeEnd - now) / e.fadeTime else 0.0;
      Drawn(e.(next := At(now + e.frameRate), frame := rendered,
               fadeValue := if e.enabled then 1.0 - remaining else remaining), true)
    else Drawn(e, true)
  }

  lemma PartOf(x: real, whole: real)
    requires whole > 0.0
    ensures x / whole * whole == x && (0.0 <= x <= whole ==> 0.0 <= x / whole <= 1.0)
  {
  }

  /** A frame that is due shows an effect as bright as the time says: one that was turned on has what is left of the
      fade still to gain, one that was turned off has it still to lose; after the fade the one is fully on and the
      other gone. */
  lemma FadeFollowsTime(e: Effect, now: real, rendered: seq<real>)
    requires (e.enabled || e.fadeValue > 0.0) && e.next.At? && now >= e.next.t
    ensures var v := GetFrame(e, now, rendered).effect.fadeValue;
            if e.fadeTime > 0.0 && now < e.fadeEnd then
              && (if e.enabled then 1.0 - v else v) * e.fadeTime == e.fadeEnd - now
              && (e.fadeEnd - e.fadeTime <= now ==> 0.0 <= v <= 1.0)
            else v == if e.enabled then 1.0 else 0.0
  {
    if e.fadeTime > 0.0 && now < e.fadeEnd {
      PartOf(e.fadeEnd - now, e.fadeTime);
    }
  }

  function SetEnabled(e: Effect, state: bool): Effect {
    if e.enabled != state then e.(enabled := state, next := NOW) else e
  }

  function SetFadeTime(e: Effect, fade: real, now: real): Effect {
    e.(fadeTime := fade, fadeEnd := now + fade, fadeValue := if fade == 0.0 then 0.0 else e.fadeValue)
  }

  /** Stopped and still owing its LEDs the one-shot black. */
  predicate BlanksOnNextFrame(e: Effect) {
    !e.enabled && e.fadeValue <= 0.0 && e.next.At?
  }

  function Stopped(e: Effect, fade: real, now: real): Effect {
    SetEnabled(if e.enabled then SetFadeTime(e, fade, now) else e, false)
  }

  function Started(e: Effect, fade: real, now: real): Effect {
    SetEnabled(if e.enabled then e else SetFadeTime(e, fade, now), true)
  }

  /** Whether the effect writes its LEDs in the next pass. */
  predicate Owns(e: Effect) {
    e.enabled || e.fadeValue > 0.0 || e.next.At?
  }

  /** Brightness of an effect in a frame drawn at `t`. */
  function Brightness(e: Effect, t: real): real {
    GetFrame(e, t, []).effect.fadeValue
  }

  /** An effect that is started fades in over the time given: in a frame drawn during the fade it is as bright as the
      part of the time that is over, and fully on without a fade or after it. */
  lemma StartFadesIn(e: Effect, fade: real, now: real, t: real)
    requires !e.enabled && fade >= 0.0 && 0.0 <= now <= t
    ensures var v := Brightness(Started(e, fade, now), t);
            if t < now + fade then v * fade == t - now else v == 1.0
  {
    if t < now + fade {
      PartOf(now + fade - t, fade);
      PartFaded(fade, now, t);
    }
  }

  lemma PartFaded(fade: real, now: real, t: real)
    requires fade > 0.0
    ensures (1.0 - (now + fade - t) / fade) * fade == t - now
  {
    PartOf(now + fade - t, fade);
  }

  /** One that is on and stopped fades out in the same way, and without a fade time is gone at once. */
  lemma StopFadesOut(e: Effect, fade: real, now: real, t: real)
    requires e.enabled && e.fadeValue > 0.0 && fade >= 0.0 && 0.0 <= now <= t
    ensures var v := Brightness(Stopped(e, fade, now), t);
            if t < now + fade then v * fade == now + fade - t else v == 0.0
  {
    if t < now + fade {
      PartOf(now + fade - t, fade);
    }
  }

  // ---------------------------------------------------------------------------------------- a frame pass

  /** Draws every effect; `rendered` says what the layers of each blend to. */
  function DrawAll(effects: seq<Effect>, now: real, rendered: nat -> seq<real>): (r: seq<Drawn>)
    ensures |r| == |effects|
    ensures forall i | 0 <= i < |r| :: r[i] == GetFrame(effects[i], now, rendered(i))
  {
    seq(|effects|, i requires 0 <= i < |effects| => GetFrame(effects[i], now, rendered(i)))
  }

  datatype LedWrite = LedWrite(led: Led, color: Color)

  /** What the `i`-th LED of a drawn effect contributes. */
  function WriteOf(e: Effect, i: nat): LedWrite
    requires i < |e.leds|
  {
    LedWrite(e.leds[i], ColorData(FramePart(e.frame, i), e.fadeValue))
  }

  /** The contributions of the first `n` LEDs of an effect, in order. */
  function EffectWrites(e: Effect, n: nat): (r: seq<LedWrite>)
    requires n <= |e.leds|
    ensures |r| == n && forall i | 0 <= i < n :: r[i] == WriteOf(e, i)
  {
    seq(n, i requires 0 <= i < n => WriteOf(e, i))
  }

  /** The contributions of all updating effects, effect by effect. */
  function Writes(drawn: seq<Drawn>): seq<LedWrite> {
    if drawn == [] then []
    else
      var last := drawn[|drawn| - 1];
      Writes(drawn[..|drawn| - 1]) + if last.update then EffectWrites(last.effect, |last.effect.leds|) else []
  }

  /** LEDs of updating effects. */
  predicate Touched(drawn: seq<Drawn>, led: Led) {
    exists i | 0 <= i < |drawn| :: drawn[i].update && led in drawn[i].effect.leds
  }

  function Blanked(leds: LedState, drawn: seq<Drawn>): LedState {
    map led | led in leds :: if Touched(drawn, led) then BLACK else leds[led]
  }

  function AddColor(a: Color, b: Color): (c: Color)
    ensures forall k | 0 <= k < COLORS :: c[k] == Min(1.0, a[k] + b[k])
  {
    seq(COLORS, k requires 0 <= k < COLORS => Min(1.0, a[k] + b[k]))
  }

  function AddWrite(leds: LedState, w: LedWrite): LedState {
    if w.led in leds then leds[w.led := AddColor(leds[w.led], w.color)] else leds
  }

  /** Adds the writes one after the other, saturating each time. */
  function AddAll(leds: LedState, writes: seq<LedWrite>): LedState {
    if writes == [] then leds
    else AddWrite(AddAll(leds, writes[..|writes| - 1]), writes[|writes| - 1])
  }

  function Composed(leds: LedState, drawn: seq<Drawn>): LedState {
    AddAll(Blanked(leds, drawn), Writes(drawn))
  }

  // ---------------------------------------------------------------------- what a pass leaves on each LED

  /** The true sum of what the writes contribute to a channel of an LED. */
  function Sum(writes: seq<LedWrite>, led: Led, k: nat): real
    requires k < COLORS
  {
    if writes == [] then 0.0
    else
      var w := writes[|writes| - 1];
      Sum(writes[..|writes| - 1], led, k) + if w.led == led then w.color[k] else 0.0
  }

  ghost predicate Unit(writes: seq<LedWrite>) {
    forall i, k | 0 <= i < |writes| && 0 <= k < COLORS :: 0.0 <= writes[i].color[k] <= 1.0
  }

  lemma {:induction false} SumNonNegative(writes: seq<LedWrite>, led: Led, k: nat)
    requires k < COLORS && Unit(writes)
    ensures Sum(writes, led, k) >= 0.0
  {
    if writes != [] {
      SumNonNegative(writes[..|writes| - 1], led, k);
    }
  }

  /** Saturating at every step or once at the end is the same. */
  lemma {:induction false} AddAllSaturates(leds: LedState, writes: seq<LedWrite>, led: Led, k: nat)
    requires k < COLORS && Unit(writes) && led in leds && 0.0 <= leds[led][k] <= 1.0
    ensures AddAll(leds, writes).Keys == leds.Keys
    ensures AddAll(leds, writes)[led][k] == Min(1.0, leds[led][k] + Sum(writes, led, k))
  {
    if writes != [] {
      AddAllSaturates(leds, writes[..|writes| - 1], led, k);
      SumNonNegative(writes[..|writes| - 1], led, k);
    }
  }

  lemma {:induction false} AddAllKeys(leds: LedState, writes: seq<LedWrite>)
    ensures AddAll(leds, writes).Keys == leds.Keys
  {
    if writes != [] {
      AddAllKeys(leds, writes[..|writes| - 1]);
    }
  }

  lemma {:induction false} AddAllElsewhere(leds: LedState, writes: seq<LedWrite>, led: Led)
    requires led in leds && forall i | 0 <= i < |writes| :: writes[i].led != led
    ensures AddAll(leds, writes).Keys == leds.Keys && AddAll(leds, writes)[led] == leds[led]
  {
    if writes != [] {
      AddAllElsewhere(leds, writes[..|writes| - 1], led);
    }
  }

  lemma {:induction false} WritesAre(drawn: seq<Drawn>)
    ensures Unit(Writes(drawn))
    ensures forall w | w in Writes(drawn) :: Touched(drawn, w.led)
  {
    if drawn != [] {
      var front := drawn[..|drawn| - 1];
      var last := drawn[|drawn| - 1];
      WritesAre(front);
      forall w | w in Writes(drawn) ensures Touched(drawn, w.led) {
        if w in Writes(front) {
          var i :| 0 <= i < |front| && front[i].update && w.led in front[i].effect.leds;
          assert drawn[i] == front[i];
        } else {
          assert last.update && w in EffectWrites(last.effect, |last.effect.leds|);
        }
      }
    }
  }

  /** After a pass each LED of an updating effect holds, per channel, the smaller of 1 and the true sum of all
      contributions to it; every other LED is as it was. */
  lemma PassComposes(leds: LedState, drawn: seq<Drawn>, led: Led, k: nat)
    requires led in leds && k < COLORS
    ensures Composed(leds, drawn).Keys == leds.Keys
    ensures Touched(drawn, led) ==>
              Composed(leds, drawn)[led][k] == Min(1.0, Sum(Writes(drawn), led, k))
              && 0.0 <= Composed(leds, drawn)[led][k] <= 1.0
    ensures !Touched(drawn, led) ==> Composed(leds, drawn)[led] == leds[led]
  {
    var start := Blanked(leds, drawn);
    WritesAre(drawn);
    if Touched(drawn, led) {
      AddAllSaturates(start, Writes(drawn), led, k);
      SumNonNegative(Writes(drawn), led, k);
    } else {
      AddAllElsewhere(start, Writes(drawn), led);
    }
  }

  // ------------------------------------------------------------------------------- order does not matter

  lemma {:induction false} SumAppend(a: seq<LedWrite>, b: seq<LedWrite>, led: Led, k: nat)
    requires k < COLORS
    ensures Sum(a + b, led, k) == Sum(a, led, k) + Sum(b, led, k)
    decreases |b|
  {
    if b == [] {
      assert a + b == a;
    } else {
      SumAppend(a, b[..|b| - 1], led, k);
      assert (a + b)[..|a + b| - 1] == a + b[..|b| - 1];
    }
  }

  /** The contributions of one drawn effect to a channel. */
  function EffectSum(d: Drawn, led: Led, k: nat): real
    requires k < COLORS
  {
    if d.update then Sum(EffectWrites(d.effect, |d.effect.leds|), led, k) else 0.0
  }

  function EffectsSum(drawn: seq<Drawn>, led: Led, k: nat): real
    requires k < COLORS
  {
    if drawn == [] then 0.0 else EffectSum(drawn[0], led, k) + EffectsSum(drawn[1..], led, k)
  }

  lemma {:induction false} EffectsSumAppend(a: seq<Drawn>, b: seq<Drawn>, led: Led, k: nat)
    requires k < COLORS
    ensures EffectsSum(a + b, led, k) == EffectsSum(a, led, k) + EffectsSum(b, led, k)
  {
    if a == [] {
      assert a + b == b;
    } else {
      EffectsSumAppend(a[1..], b, led, k);
      assert (a + b)[1..] == a[1..] + b;
    }
  }

  lemma {:induction false} WritesSum(drawn: seq<Drawn>, led: Led, k: nat)
    requires k < COLORS
    ensures Sum(Writes(drawn), led, k) == EffectsSum(drawn, led, k)
    decreases |drawn|
  {
    if drawn != [] {
      var front, last := drawn[..|drawn| - 1], drawn[|drawn| - 1];
      WritesSum(front, led, k);
      LastWrites(front, last, led, k);
      EffectsSumAppend(front, [last], led, k);
      OneEffectSum(last, led, k);
      assert drawn == front + [last];
    }
  }

  lemma LastWrites(front: seq<Drawn>, last: Drawn, led: Led, k: nat)
    requires k < COLORS
    ensures Sum(Writes(front + [last]), led, k) == Sum(Writes(front), led, k) + EffectSum(last, led, k)
  {
    assert (front + [last])[..|front|] == front;
    SumAppend(Writes(front), if last.update then EffectWrites(last.effect, |last.effect.leds|) else [], led, k);
  }

  lemma OneEffectSum(d: Drawn, led: Led, k: nat)
    requires k < COLORS
    ensures EffectsSum([d], led, k) == EffectSum(d, led, k)
  {
    assert [d][1..] == [];
  }

  lemma RestOfMultiset(a: seq<Drawn>, b: seq<Drawn>, i: nat)
    requires |a| > 0 && i < |b| && b[i] == a[0] && multiset(a) == multiset(b)
    ensures multiset(a[1..]) == multiset(b[..i] + b[i + 1..])
  {
    assert a == [a[0]] + a[1..];
    assert b == b[..i] + [b[i]] + b[i + 1..];
    assert multiset(a) == multiset{a[0]} + multiset(a[1..]);
    assert multiset(b) == multiset(b[..i]) + multiset{b[i]} + multiset(b[i + 1..]);
    assert multiset(a[1..]) == multiset(a) - multiset{a[0]};
    assert multiset(b[..i] + b[i + 1..]) == multiset(b) - multiset{b[i]};
  }

  lemma {:induction false} EffectsSumPermuted(a: seq<Drawn>, b: seq<Drawn>, led: Led, k: nat)
    requires k < COLORS && multiset(a) == multiset(b)
    ensures EffectsSum(a, led, k) == EffectsSum(b, led, k)
    decreases |a|
  {
    if a == [] {
      assert |multiset(b)| == 0;
    } else {
      assert a[0] in multiset(b);
      var i :| 0 <= i < |b| && b[i] == a[0];
      var rest := b[..i] + b[i + 1..];
      assert b == b[..i] + [b[i]] + b[i + 1..];
      assert a == [a[0]] + a[1..];
      RestOfMultiset(a, b, i);
      EffectsSumPermuted(a[1..], rest, led, k);
      EffectsSumAppend(b[..i], b[i + 1..], led, k);
      EffectsSumAppend(b[..i], [b[i]], led, k);
      EffectsSumAppend(b[..i] + [b[i]], b[i + 1..], led, k);
      OneEffectSum(b[i], led, k);
    }
  }

  /** The order of the effects makes no difference to any channel of any LED. */
  lemma OrderDoesNotMatter(leds: LedState, a: seq<Drawn>, b: seq<Drawn>, led: Led, k: nat)
    requires multiset(a) == multiset(b) && led in leds && k < COLORS
    ensures Composed(leds, a).Keys == Composed(leds, b).Keys == leds.Keys
    ensures Composed(leds, a)[led][k] == Composed(leds, b)[led][k]
  {
    assert Touched(a, led) <==> Touched(b, led) by {
      if Touched(a, led) {
        var i :| 0 <= i < |a| && a[i].update && led in a[i].effect.leds;
        assert a[i] in multiset(b);
      }
      if Touched(b, led) {
        var i :| 0 <= i < |b| && b[i].update && led in b[i].effect.leds;
        assert b[i] in multiset(a);
      }
    }
    PassComposes(leds, a, led, k);
    PassComposes(leds, b, led, k);
    WritesSum(a, led, k);
    WritesSum(b, led, k);
    EffectsSumPermuted(a, b, led, k);
  }
}
