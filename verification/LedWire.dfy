/** The MIDI messages the LED feedback of led_feedback.cpp puts on the wire, and what
    a refresh leaves the LEDs showing. */
module LedWire {
  import opened Bytes
  import opened Mdef
  import opened LedModel
  import opened LedFeedback

  // ---- messages ----------------------------------------------------------

  /** Note On for a note LED, Control Change for a CC LED, on the LED's own channel or
      else the controller's: 0 and 1 are the first channel, 16 the last. */
  predicate SpeaksFor(midiChannel: byte, l: Led, status: byte) {
    status as int / 16 == (if l.msgType == 0 then 9 else 11) &&
    status as int % 16 ==
      if l.sendChannel != 0xFF then l.sendChannel as int % 16
      else if midiChannel == 0 then 0
      else (midiChannel as int - 1) % 16
  }

  /** The message tells its LED the value wanted for it. */
  predicate Tells(midiChannel: byte, leds: seq<Led>, s: Send, t: real) {
    s.led < |leds| && Pending(leds[s.led]) && s.time == t && s.addr == leds[s.led].addr &&
    s.value == leds[s.led].desiredValue && SpeaksFor(midiChannel, leds[s.led], s.status)
  }

  lemma StatusSpeaks(midiChannel: byte, l: Led)
    ensures SpeaksFor(midiChannel, l, Status(midiChannel, l))
  {
  }

  /** Every message of a pump tells a pending LED what is wanted of it. */
  lemma {:induction false} FlushTells(midiChannel: byte, leds: seq<Led>, tokens: real, t: real, k: nat)
    requires k < |Flushed(midiChannel, leds, tokens, t).sent|
    ensures Tells(midiChannel, leds, Flushed(midiChannel, leds, tokens, t).sent[k], t)
  {
    var n := |leds| - 1;
    var f := Flushed(midiChannel, leds[..n], tokens, t);
    if k < |f.sent| {
      FlushTells(midiChannel, leds[..n], tokens, t, k);
      var s := f.sent[k];
      assert leds[..n][s.led] == leds[s.led];
    } else {
      StatusSpeaks(midiChannel, leds[n]);
    }
  }

  /** While the bucket is not full it gains `rate` tokens a second. */
  lemma CreditGained(rate: real, s: Tracker, t: real)
    requires s.lastPumpT >= 0.0 && t >= s.lastPumpT && s.tokens <= rate
    ensures Refilled(rate, s, t) == rate || Refilled(rate, s, t) - s.tokens == (t - s.lastPumpT) * rate
  {
  }

  // ---- staging -----------------------------------------------------------

  predicate Lights(l: LedRange, kind: byte, addr: byte) {
    l.msgType == kind && l.addrFrom <= addr <= l.addrTo
  }

  predicate FirstLights(c: Controller, kind: byte, addr: byte, i: int) {
    0 <= i < |c.leds| && Lights(c.leds[i], kind, addr) && forall j :: 0 <= j < i ==> !Lights(c.leds[j], kind, addr)
  }

  /** Range `i` drives the LED at `addr`: the first note range that has it, or failing
      any the first CC range. */
  predicate Drives(c: Controller, addr: byte, i: int) {
    FirstLights(c, 0, addr, i) ||
    (FirstLights(c, 1, addr, i) && forall j :: 0 <= j < |c.leds| ==> !Lights(c.leds[j], 0, addr))
  }

  lemma DrivesIsRange(c: Controller, addr: byte, i: int)
    requires Drives(c, addr, i)
    ensures RangeFor(c, addr) == i
  {
    var n, k := LedIndex(c.leds, NOTE, addr), LedIndex(c.leds, CC, addr);
    assert forall j :: 0 <= j < |c.leds| ==>
      (Lights(c.leds[j], 0, addr) <==> Covers(c.leds[j], NOTE, addr)) &&
      (Lights(c.leds[j], 1, addr) <==> Covers(c.leds[j], CC, addr));
  }

  /** The event staged for an LED that range `i` drives, `value` being that of the
      first colour so named in the range's own palette: the channel is honoured only
      where the range has channels. */
  lemma StagedMeans(c: Controller, addr: byte, channel: byte, color: Name, i: int, value: byte)
    requires Drives(c, addr, i) && IsColorValue(c, c.leds[i], color, Some(value))
    ensures Staged(c, addr, channel, color)
            == Some(Want(addr, channel, c.leds[i].msgType,
                         if c.leds[i].channelFrom == 0xFF then 0xFF else channel, value))
  {
    DrivesIsRange(c, addr, i);
    SearchFindsFirst(c, c.leds[i], color, 0);
    FirstColorUnique(c, c.leds[i], color, value, ColorFrom(c, c.leds[i], color, 0));
  }

  lemma FirstColorUnique(c: Controller, l: LedRange, name: Name, value: byte, r: Option<byte>)
    requires IsColorValue(c, l, name, Some(value)) && IsColorValue(c, l, name, r)
    ensures r == Some(value)
  {
    var k: nat :| ColorNamed(c, l, k, name) && c.colors[l.colorOffset as int + k].value == value &&
                  forall j :: 0 <= j < k ==> !ColorNamed(c, l, j, name);
    assert r.Some?;
    var m: nat :| ColorNamed(c, l, m, name) && c.colors[l.colorOffset as int + m].value == r.value &&
                  forall j :: 0 <= j < m ==> !ColorNamed(c, l, j, name);
    assert k == m;
  }

  // ---- a refresh ---------------------------------------------------------

  lemma {:induction false} BindingStaged(c: Controller, bindings: seq<AutoBinding>, active: set<u16>, i: nat, e: Event)
    requires i < |bindings|
    requires Staged(c, bindings[i].addr, bindings[i].channel,
                    if bindings[i].cueId in active then bindings[i].activeName else bindings[i].inactiveName) == Some(e)
    ensures e in AutoEvents(c, bindings, active)
  {
    var n := |bindings| - 1;
    if i < n { BindingStaged(c, bindings[..n], active, i, e); }
  }

  /** The LED tracked for that address and channel was last sent this value. */
  predicate Shows(leds: seq<Led>, addr: byte, channel: byte, value: byte) {
    var i := Find(leds, addr, channel);
    i < |leds| && leds[i].hasLastSent && leds[i].lastSentValue == value
  }

  lemma {:induction false} NoneLeft(leds: seq<Led>, i: nat)
    requires PendingCount(leds) == 0 && i < |leds|
    ensures !Pending(leds[i])
  {
    var n := |leds| - 1;
    if i < n { NoneLeft(leds[..n], i); }
  }

  lemma ReflectedShows(leds: seq<Led>, e: Event)
    requires e.Want? && Reflected(leds, e) && PendingCount(leds) == 0
    ensures Shows(leds, e.addr, e.channel, e.value)
  {
    NoneLeft(leds, Find(leds, e.addr, e.channel));
  }

  /** Once a refresh has left nothing pending, an LED bound to a cue shows the colour
      for an active cue or the other one, according to whether it is active. */
  lemma {:induction false} RefreshShows(c: Controller, rate: real, s: Tracker, bindings: seq<AutoBinding>,
                                        active: set<u16>, t: real, i: nat, r: int, value: byte)
    requires DistinctBindings(bindings) && i < |bindings| && Drives(c, bindings[i].addr, r)
    requires IsColorValue(c, c.leds[r],
                          if bindings[i].cueId in active then bindings[i].activeName else bindings[i].inactiveName,
                          Some(value))
    requires PendingCount(Refreshed(c, rate, s, bindings, active, t).leds) == 0
    ensures Shows(Refreshed(c, rate, s, bindings, active, t).leds, bindings[i].addr, bindings[i].channel, value)
  {
    var b := bindings[i];
    var color := if b.cueId in active then b.activeName else b.inactiveName;
    StagedMeans(c, b.addr, b.channel, color, r, value);
    var e := Staged(c, b.addr, b.channel, color).value;
    BindingStaged(c, bindings, active, i, e);
    EventReflected(c, rate, s, bindings, active, t, e);
    ReflectedShows(Refreshed(c, rate, s, bindings, active, t).leds, e);
  }

  function Refreshed(c: Controller, rate: real, s: Tracker, bindings: seq<AutoBinding>, active: set<u16>, t: real): Tracker {
    Pumped(rate, c.midiChannel, RunFrom(rate, c.midiChannel, s, AutoEvents(c, bindings, active)), t)
  }

  lemma {:induction false} EventReflected(c: Controller, rate: real, s: Tracker, bindings: seq<AutoBinding>,
                                          active: set<u16>, t: real, e: Event)
    requires DistinctBindings(bindings) && e in AutoEvents(c, bindings, active) && e.Want?
    ensures Reflected(Refreshed(c, rate, s, bindings, active, t).leds, e)
  {
    var events := AutoEvents(c, bindings, active);
    AutoEventsDistinct(c, bindings, active);
    StagingReflected(rate, c.midiChannel, s, events);
    var staged := RunFrom(rate, c.midiChannel, s, events);
    var k :| 0 <= k < |events| && events[k] == e;
    assert Reflected(staged.leds, events[k]);
    FlushReflects(c.midiChannel, staged.leds, Refilled(rate, staged, t), t, e);
  }
}
