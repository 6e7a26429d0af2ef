/** LedFeedback of led_feedback.cpp: staged LED values, automatic bindings to cues
    and the rate-limited pump, as an object over the machine of LedModel. */
module LedFeedback {
  import opened Bytes
  import opened Mdef
  import opened LedModel

  type Name = seq<byte>

  datatype AutoBinding = AutoBinding(addr: byte, channel: byte, cueId: u16, activeName: Name, inactiveName: Name)

  // ---- specification -----------------------------------------------------

  /** The LED range driving `addr`: a note range if there is one, else a CC range. */
  function RangeFor(c: Controller, addr: byte): (i: nat)
    ensures i <= |c.leds|
  {
    if LedIndex(c.leds, NOTE, addr) < |c.leds| then LedIndex(c.leds, NOTE, addr) else LedIndex(c.leds, CC, addr)
  }

  /** What staging a colour amounts to; nothing for an unknown LED or colour. */
  function Staged(c: Controller, addr: byte, channel: byte, color: Name): (r: Option<Event>)
    ensures r.Some? ==> r.value.Want? && r.value.addr == addr && r.value.channel == channel
  {
    var i := RangeFor(c, addr);
    if i == |c.leds| then None else
      match ColorFrom(c, c.leds[i], color, 0)
      case None => None
      case Some(value) =>
        var significant := c.leds[i].channelFrom != CHANNEL_AGNOSTIC && channel != CHANNEL_AGNOSTIC;
        Some(Want(addr, channel, c.leds[i].msgType, if significant then channel else CHANNEL_AGNOSTIC, value))
  }

  function AutoColor(b: AutoBinding, active: set<u16>): Name {
    if b.cueId in active then b.activeName else b.inactiveName
  }

  /** The stagings of a refresh, binding by binding. */
  function AutoEvents(c: Controller, bindings: seq<AutoBinding>, active: set<u16>): (es: seq<Event>)
    ensures forall i :: 0 <= i < |es| ==> es[i].Want?
  {
    if bindings == [] then [] else
      var front, b := AutoEvents(c, bindings[..|bindings| - 1], active), bindings[|bindings| - 1];
      match Staged(c, b.addr, b.channel, AutoColor(b, active))
      case None => front
      case Some(e) => front + [e]
  }

  function RunFrom(rate: real, midiChannel: byte, s: Tracker, events: seq<Event>): Tracker {
    if events == [] then s
    else Next(rate, midiChannel, RunFrom(rate, midiChannel, s, events[..|events| - 1]), events[|events| - 1])
  }

  lemma RunFromPush(rate: real, midiChannel: byte, s: Tracker, events: seq<Event>, e: Event)
    ensures RunFrom(rate, midiChannel, s, events + [e]) == Next(rate, midiChannel, RunFrom(rate, midiChannel, s, events), e)
  {
    assert (events + [e])[..|events|] == events;
  }

  // ---- a static show is silent -------------------------------------------

  /** The tracked LED already is as `e` wants it. */
  predicate Reflected(leds: seq<Led>, e: Event)
    requires e.Want?
  {
    var i := Find(leds, e.addr, e.channel);
    i < |leds| && leds[i].msgType == e.msgType && leds[i].sendChannel == e.sendChannel &&
    leds[i].hasDesired && leds[i].desiredValue == e.value
  }

  predicate SameKeys(leds: seq<Led>, more: seq<Led>) {
    |leds| <= |more| &&
    forall i :: 0 <= i < |leds| ==> more[i].addr == leds[i].addr && more[i].stateChannel == leds[i].stateChannel
  }

  lemma FindStable(leds: seq<Led>, more: seq<Led>, addr: byte, channel: byte)
    requires SameKeys(leds, more) && Find(leds, addr, channel) < |leds|
    ensures Find(more, addr, channel) == Find(leds, addr, channel)
  {
    var i, j := Find(leds, addr, channel), Find(more, addr, channel);
    assert more[i].addr == addr && more[i].stateChannel == channel;
    assert j <= i;
    assert leds[j].addr == more[j].addr && leds[j].stateChannel == more[j].stateChannel;
  }

  lemma WantKeepsKeys(leds: seq<Led>, e: Event)
    requires e.Want?
    ensures SameKeys(leds, Wanted(leds, e.addr, e.channel, e.msgType, e.sendChannel, e.value))
    ensures Reflected(Wanted(leds, e.addr, e.channel, e.msgType, e.sendChannel, e.value), e)
  {
    var all := Tracked(leds, e.addr, e.channel);
    var i := Find(leds, e.addr, e.channel);
    var after := Wanted(leds, e.addr, e.channel, e.msgType, e.sendChannel, e.value);
    assert all[i].addr == e.addr && all[i].stateChannel == e.channel;
    assert forall j :: 0 <= j < i ==> after[j] == leds[j];
    var j := Find(after, e.addr, e.channel);
    assert after[i].addr == e.addr && after[i].stateChannel == e.channel;
    assert j <= i;
  }

  lemma WantKeepsOthers(leds: seq<Led>, e: Event, f: Event)
    requires e.Want? && f.Want? && Reflected(leds, f) && (f.addr != e.addr || f.channel != e.channel)
    ensures Reflected(Wanted(leds, e.addr, e.channel, e.msgType, e.sendChannel, e.value), f)
  {
    WantKeepsKeys(leds, e);
    FindStable(leds, Wanted(leds, e.addr, e.channel, e.msgType, e.sendChannel, e.value), f.addr, f.channel);
  }

  lemma WantAgain(leds: seq<Led>, e: Event)
    requires e.Want? && Reflected(leds, e)
    ensures Wanted(leds, e.addr, e.channel, e.msgType, e.sendChannel, e.value) == leds
  {
  }

  predicate DistinctWants(events: seq<Event>) {
    (forall i :: 0 <= i < |events| ==> events[i].Want?) &&
    forall i, j :: 0 <= i < j < |events| ==> events[i].addr != events[j].addr || events[i].channel != events[j].channel
  }

  predicate AllReflected(leds: seq<Led>, events: seq<Event>)
    requires DistinctWants(events)
  {
    forall i :: 0 <= i < |events| ==> Reflected(leds, events[i])
  }

  lemma {:induction false} StagingReflected(rate: real, midiChannel: byte, s: Tracker, events: seq<Event>)
    requires DistinctWants(events)
    ensures AllReflected(RunFrom(rate, midiChannel, s, events).leds, events)
  {
    if events == [] {
    } else {
      var n := |events| - 1;
      StagingReflected(rate, midiChannel, s, events[..n]);
      var leds := RunFrom(rate, midiChannel, s, events[..n]).leds;
      WantKeepsKeys(leds, events[n]);
      forall i | 0 <= i < n ensures Reflected(RunFrom(rate, midiChannel, s, events).leds, events[i]) {
        assert Reflected(leds, events[..n][i]);
        WantKeepsOthers(leds, events[n], events[i]);
      }
    }
  }

  lemma {:induction false} StagingAgain(rate: real, midiChannel: byte, s: Tracker, events: seq<Event>)
    requires DistinctWants(events) && AllReflected(s.leds, events)
    ensures RunFrom(rate, midiChannel, s, events) == s
  {
    if events == [] {
    } else {
      var n := |events| - 1;
      assert forall i :: 0 <= i < n ==> events[..n][i] == events[i];
      StagingAgain(rate, midiChannel, s, events[..n]);
      WantAgain(s.leds, events[n]);
    }
  }

  lemma {:induction false} FlushKeeps(midiChannel: byte, leds: seq<Led>, tokens: real, t: real)
    ensures var f := Flushed(midiChannel, leds, tokens, t);
            forall i :: 0 <= i < |leds| ==> f.leds[i] == leds[i] || f.leds[i] == Delivered(leds[i])
  {
    if leds == [] {
    } else {
      FlushKeeps(midiChannel, leds[..|leds| - 1], tokens, t);
    }
  }

  lemma FlushReflects(midiChannel: byte, leds: seq<Led>, tokens: real, t: real, e: Event)
    requires e.Want? && Reflected(leds, e)
    ensures Reflected(Flushed(midiChannel, leds, tokens, t).leds, e)
  {
    FlushKeeps(midiChannel, leds, tokens, t);
    FindStable(leds, Flushed(midiChannel, leds, tokens, t).leds, e.addr, e.channel);
  }

  /** Once a refresh has left nothing pending, refreshing again with the same
      stagings sends nothing, at any time and any rate. */
  lemma StaticShowIsSilent(rate: real, midiChannel: byte, s: Tracker, events: seq<Event>, t1: real, t2: real)
    requires DistinctWants(events)
    requires var once := Pumped(rate, midiChannel, RunFrom(rate, midiChannel, s, events), t1);
             PendingCount(once.leds) == 0
    ensures var once := Pumped(rate, midiChannel, RunFrom(rate, midiChannel, s, events), t1);
            Pumped(rate, midiChannel, RunFrom(rate, midiChannel, once, events), t2).sent == once.sent
  {
    var staged := RunFrom(rate, midiChannel, s, events);
    var once := Pumped(rate, midiChannel, staged, t1);
    StagingReflected(rate, midiChannel, s, events);
    forall i | 0 <= i < |events| ensures Reflected(once.leds, events[i]) {
      FlushReflects(midiChannel, staged.leds, Refilled(rate, staged, t1), t1, events[i]);
    }
    StagingAgain(rate, midiChannel, once, events);
    NothingPending(midiChannel, once.leds, Refilled(rate, once, t2), t2);
  }

  lemma {:induction false} NothingPending(midiChannel: byte, leds: seq<Led>, tokens: real, t: real)
    requires PendingCount(leds) == 0
    ensures Flushed(midiChannel, leds, tokens, t).sent == []
  {
    if leds == [] {
    } else {
      NothingPending(midiChannel, leds[..|leds| - 1], tokens, t);
    }
  }

  /** Automatic bindings have one entry per address and channel. */
  predicate DistinctBindings(bindings: seq<AutoBinding>) {
    forall i, j :: 0 <= i < j < |bindings| ==>
      bindings[i].addr != bindings[j].addr || bindings[i].channel != bindings[j].channel
  }

  predicate SameKey(a: AutoBinding, b: AutoBinding) {
    a.addr == b.addr && a.channel == b.channel
  }

  function KeyIndex(bindings: seq<AutoBinding>, b: AutoBinding): (i: nat)
    ensures i <= |bindings| && (i < |bindings| ==> SameKey(bindings[i], b))
    ensures forall j :: 0 <= j < i ==> !SameKey(bindings[j], b)
  {
    if bindings == [] || SameKey(bindings[0], b) then 0 else 1 + KeyIndex(bindings[1..], b)
  }

  /** The bindings with `b` in place of one with its key, or else after them. */
  function Bound(bindings: seq<AutoBinding>, b: AutoBinding): seq<AutoBinding> {
    var i := KeyIndex(bindings, b);
    if i < |bindings| then bindings[i := b] else bindings + [b]
  }

  lemma BoundDistinct(bindings: seq<AutoBinding>, b: AutoBinding)
    requires DistinctBindings(bindings)
    ensures DistinctBindings(Bound(bindings, b)) && b in Bound(bindings, b)
    ensures forall c :: c in bindings && !SameKey(c, b) ==> c in Bound(bindings, b)
  {
    var i, after := KeyIndex(bindings, b), Bound(bindings, b);
    assert after[i] == b;
    forall c | c in bindings && !SameKey(c, b) ensures c in after {
      var j :| 0 <= j < |bindings| && bindings[j] == c;
      assert after[j] == c;
    }
  }

  lemma {:induction false} AutoEventsDistinct(c: Controller, bindings: seq<AutoBinding>, active: set<u16>)
    requires DistinctBindings(bindings)
    ensures DistinctWants(AutoEvents(c, bindings, active))
    ensures forall k :: 0 <= k < |AutoEvents(c, bindings, active)| ==>
              exists i :: 0 <= i < |bindings| && bindings[i].addr == AutoEvents(c, bindings, active)[k].addr &&
                          bindings[i].channel == AutoEvents(c, bindings, active)[k].channel
  {
    if bindings == [] {
    } else {
      var n := |bindings| - 1;
      AutoEventsDistinct(c, bindings[..n], active);
      var front := AutoEvents(c, bindings[..n], active);
      forall k | 0 <= k < |front|
        ensures exists i :: 0 <= i < n && bindings[i].addr == front[k].addr && bindings[i].channel == front[k].channel
      {
        var i :| 0 <= i < n && bindings[..n][i].addr == front[k].addr && bindings[..n][i].channel == front[k].channel;
        assert bindings[i] == bindings[..n][i];
      }
    }
  }

  // ---- the object --------------------------------------------------------

  class Engine {
    const profile: Controller
    const maxMsgsPerSec: real
    var states: seq<Led>
    var autoBindings: seq<AutoBinding>
    var tokens: real
    var lastPumpT: real
    var output: seq<Send>

    function State(): Tracker
      reads this
    {
      Tracker(states, tokens, lastPumpT, output)
    }

    /** The profile was parsed, and each address has one automatic binding. */
    ghost predicate Valid()
      reads this
    {
      Wellformed(profile) && DistinctBindings(autoBindings)
    }

    constructor (profile: Controller, maxMsgsPerSec: real)
      requires Wellformed(profile)
      ensures Valid() && this.profile == profile && this.maxMsgsPerSec == maxMsgsPerSec
      ensures State() == IDLE && autoBindings == []
    {
      this.profile, this.maxMsgsPerSec := profile, maxMsgsPerSec;
      states, autoBindings, output := [], [], [];
      tokens, lastPumpT := 0.0, -1.0;
    }

    /** Position of the LED's state, created on first use. */
    method StateFor(addr: byte, channel: byte) returns (i: nat)
      modifies this`states
      ensures states == Tracked(old(states), addr, channel) && i == Find(old(states), addr, channel)
    {
      i := 0;
      while i < |states|
        invariant i <= |states|
        invariant forall j :: 0 <= j < i ==> !(states[j].addr == addr && states[j].stateChannel == channel)
      {
        if states[i].addr == addr && states[i].stateChannel == channel { return; }
        i := i + 1;
      }
      states := states + [NewLed(addr, channel)];
    }

    method LedRangeFor(addr: byte) returns (i: nat)
      ensures i == RangeFor(profile, addr)
    {
      i := FindLedRange(profile, NOTE, addr);
      if i == |profile.leds| {
        i := FindLedRange(profile, CC, addr);
      }
    }

    method ApplyDesired(addr: byte, channel: byte, color: Name)
      requires Valid()
      modifies this`states
      ensures Valid()
      ensures State() == match Staged(profile, addr, channel, color)
                         case None => old(State())
                         case Some(e) => Next(maxMsgsPerSec, profile.midiChannel, old(State()), e)
    {
      var r := LedRangeFor(addr);
      if r == |profile.leds| { return; }
      var range := profile.leds[r];
      LookupAllowed(profile, r);
      var value := LedColorValueByName(profile, range, color);
      if value.None? { return; }
      var i := StateFor(addr, channel);
      var sendChannel := if range.channelFrom != CHANNEL_AGNOSTIC && channel != CHANNEL_AGNOSTIC
                         then channel else CHANNEL_AGNOSTIC;
      states := states[i := states[i].(msgType := range.msgType, sendChannel := sendChannel,
                                       hasDesired := true, desiredValue := value.value)];
    }

    method Set(addr: byte, color: Name)
      requires Valid()
      modifies this`states
      ensures Valid()
      ensures State() == match Staged(profile, addr, CHANNEL_AGNOSTIC, color)
                         case None => old(State())
                         case Some(e) => Next(maxMsgsPerSec, profile.midiChannel, old(State()), e)
    {
      ApplyDesired(addr, CHANNEL_AGNOSTIC, color);
    }

    /** A second binding for the same address and channel replaces the first. */
    method SetAuto(b: AutoBinding)
      requires Valid()
      modifies this`autoBindings
      ensures Valid() && autoBindings == Bound(old(autoBindings), b)
    {
      BoundDistinct(autoBindings, b);
      var i := 0;
      while i < |autoBindings|
        invariant i <= |autoBindings| && autoBindings == old(autoBindings)
        invariant forall j :: 0 <= j < i ==> !SameKey(autoBindings[j], b)
      {
        if autoBindings[i].addr == b.addr && autoBindings[i].channel == b.channel {
          autoBindings := autoBindings[i := b];
          return;
        }
        i := i + 1;
      }
      autoBindings := autoBindings + [b];
    }

    method ClearAuto()
      requires Valid()
      modifies this`autoBindings
      ensures Valid() && autoBindings == []
    {
      autoBindings := [];
    }

    method SendFor(t: real, i: nat)
      requires i < |states|
      modifies this`output
      ensures var l := states[i];
              output == old(output) + [Send(t, i, Status(profile.midiChannel, l), l.addr, l.desiredValue)]
    {
      var l := states[i];
      var nibble := Nibble(profile.midiChannel, l);
      var status := (if l.msgType == NOTE then 0x90 else 0xB0) + nibble as int;
      output := output + [Send(t, i, status, l.addr, l.desiredValue)];
    }

    method Refill(t: real)
      modifies this`tokens, this`lastPumpT
      ensures tokens == Refilled(maxMsgsPerSec, old(State()), t) && lastPumpT == t
    {
      if lastPumpT < 0.0 {
        tokens := maxMsgsPerSec;
      } else {
        var dt := t - lastPumpT;
        if dt > 0.0 {
          tokens := tokens + dt * maxMsgsPerSec;
          if tokens > maxMsgsPerSec { tokens := maxMsgsPerSec; }
        }
      }
      lastPumpT := t;
    }

    method Pump(t: real)
      requires Valid()
      modifies this`states, this`tokens, this`lastPumpT, this`output
      ensures Valid() && State() == Pumped(maxMsgsPerSec, profile.midiChannel, old(State()), t)
    {
      Refill(t);
      FlushStates(t);
    }

    /** The loop over the tracked LEDs. */
    method FlushStates(t: real)
      modifies this`states, this`tokens, this`output
      ensures var f := Flushed(profile.midiChannel, old(states), old(tokens), t);
              states == f.leds && tokens == f.tokens && output == old(output) + f.sent
    {
      ghost var leds, sent, credit := states, output, tokens;
      for i := 0 to |states|
        invariant |states| == |leds| && states[i..] == leds[i..]
        invariant Progressed(profile.midiChannel, leds[..i], credit, t, sent, states[..i], tokens, output)
      {
        FlushStep(profile.midiChannel, leds, i, credit, t);
        assert states[i] == leds[i];
        ghost var before := states;
        PumpOne(t, i);
        TailKept(before, states, leds, i);
      }
      assert leds[..|leds|] == leds && states[..|leds|] == states;
    }

    /** One turn of the loop. */
    method PumpOne(t: real, i: nat)
      requires i < |states|
      modifies this`states, this`tokens, this`output
      ensures var l := old(states[i]);
              if Pending(l) && old(tokens) >= 1.0 then
                states == old(states)[i := Delivered(l)] && tokens == old(tokens) - 1.0 &&
                output == old(output) + [Send(t, i, Status(profile.midiChannel, l), l.addr, l.desiredValue)]
              else states == old(states) && tokens == old(tokens) && output == old(output)
    {
      var st := states[i];
      if !st.hasDesired { return; }
      if st.hasLastSent && st.desiredValue == st.lastSentValue { return; }
      if tokens < 1.0 { return; }
      SendFor(t, i);
      tokens := tokens - 1.0;
      states := states[i := st.(lastSentValue := st.desiredValue, hasLastSent := true)];
    }

    /** One frame: `active` are the cues active in the show. */
    method Refresh(active: set<u16>, t: real)
      requires Valid()
      modifies this`states, this`tokens, this`lastPumpT, this`output
      ensures Valid()
      ensures State() == Pumped(maxMsgsPerSec, profile.midiChannel,
                                RunFrom(maxMsgsPerSec, profile.midiChannel, old(State()),
                                        AutoEvents(profile, autoBindings, active)), t)
    {
      ghost var before := State();
      for i := 0 to |autoBindings|
        invariant Valid()
        invariant State() == RunFrom(maxMsgsPerSec, profile.midiChannel, before,
                                     AutoEvents(profile, autoBindings[..i], active))
      {
        var b := autoBindings[i];
        assert autoBindings[..i + 1][..i] == autoBindings[..i];
        ghost var done := AutoEvents(profile, autoBindings[..i], active);
        ghost var staged := Staged(profile, b.addr, b.channel, AutoColor(b, active));
        if staged.Some? { RunFromPush(maxMsgsPerSec, profile.midiChannel, before, done, staged.value); }
        ApplyDesired(b.addr, b.channel, if b.cueId in active then b.activeName else b.inactiveName);
      }
      assert autoBindings[..|autoBindings|] == autoBindings;
      Pump(t);
    }

    method Pendings() returns (n: nat)
      ensures n == PendingCount(states)
    {
      n := 0;
      for i := 0 to |states|
        invariant n == PendingCount(states[..i])
      {
        assert states[..i + 1][..i] == states[..i];
        var st := states[i];
        if st.hasDesired && (!st.hasLastSent || st.desiredValue != st.lastSentValue) { n := n + 1; }
      }
      assert states[..|states|] == states;
    }
  }

  lemma TailKept(before: seq<Led>, after: seq<Led>, leds: seq<Led>, i: nat)
    requires i < |before| == |after| == |leds| && before[i..] == leds[i..]
    requires after == before[i := after[i]]
    ensures after[i + 1..] == leds[i + 1..] && after[..i + 1] == before[..i] + [after[i]]
  {
    assert forall k :: i < k < |leds| ==> after[k] == before[k] == before[i..][k - i] == leds[i..][k - i];
  }

  ghost predicate Progressed(midiChannel: byte, seen: seq<Led>, credit: real, t: real, sentBefore: seq<Send>,
                             states: seq<Led>, tokens: real, output: seq<Send>) {
    var f := Flushed(midiChannel, seen, credit, t);
    states == f.leds && tokens == f.tokens && output == sentBefore + f.sent
  }

  lemma LookupAllowed(c: Controller, r: nat)
    requires Wellformed(c) && r < |c.leds|
    ensures NamesInside(c) && c.leds[r].colorOffset as int + c.leds[r].colorCount as int <= |c.colors|
  {
    assert LedOk(c.leds[r], |c.colors|);
  }
}
