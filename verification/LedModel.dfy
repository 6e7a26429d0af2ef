/** The rate limiter of led_feedback.cpp as a machine over its events: an LED is
    given a desired value, or the pending values are pumped out at time `t`. */
module LedModel {
  import opened Bytes
  import opened Mdef
  import opened Reals

  datatype Led = Led(
    addr: byte, stateChannel: byte, msgType: byte, sendChannel: byte,
    hasDesired: bool, desiredValue: byte, hasLastSent: bool, lastSentValue: byte)

  /** One MIDI message handed to the output, for the tracked LED `led`. */
  datatype Send = Send(time: real, led: nat, status: byte, addr: byte, value: byte)

  datatype Tracker = Tracker(leds: seq<Led>, tokens: real, lastPumpT: real, sent: seq<Send>)

  const NEVER: real := -1.0
  const IDLE: Tracker := Tracker([], 0.0, NEVER, [])

  // ---- desired values ----------------------------------------------------

  function Find(leds: seq<Led>, addr: byte, channel: byte): (i: nat)
    ensures i <= |leds|
    ensures i < |leds| ==> leds[i].addr == addr && leds[i].stateChannel == channel
    ensures forall j :: 0 <= j < i ==> !(leds[j].addr == addr && leds[j].stateChannel == channel)
  {
    if leds == [] || (leds[0].addr == addr && leds[0].stateChannel == channel) then 0
    else 1 + Find(leds[1..], addr, channel)
  }

  function NewLed(addr: byte, channel: byte): Led {
    Led(addr, channel, NOTE, CHANNEL_AGNOSTIC, false, 0, false, 0)
  }

  /** The LEDs with one for that address and channel among them. */
  function Tracked(leds: seq<Led>, addr: byte, channel: byte): (r: seq<Led>)
    ensures Find(leds, addr, channel) < |r| && |leds| <= |r|
    ensures forall i :: 0 <= i < |leds| ==> r[i] == leds[i]
  {
    if Find(leds, addr, channel) < |leds| then leds else leds + [NewLed(addr, channel)]
  }

  function Wanted(leds: seq<Led>, addr: byte, channel: byte, msgType: byte, sendChannel: byte, value: byte)
    : (r: seq<Led>)
    ensures |leds| <= |r|
  {
    var all, i := Tracked(leds, addr, channel), Find(leds, addr, channel);
    all[i := all[i].(msgType := msgType, sendChannel := sendChannel, hasDesired := true, desiredValue := value)]
  }

  // ---- the token bucket --------------------------------------------------

  /** Tokens after the time up to `t` has been credited; the first pump starts full. */
  function Refilled(rate: real, s: Tracker, t: real): real {
    if s.lastPumpT < 0.0 then rate
    else if t > s.lastPumpT then
      var tokens := s.tokens + (t - s.lastPumpT) * rate;
      if tokens > rate then rate else tokens
    else s.tokens
  }

  predicate Pending(l: Led) {
    l.hasDesired && (!l.hasLastSent || l.desiredValue != l.lastSentValue)
  }

  function PendingCount(leds: seq<Led>): nat {
    if leds == [] then 0
    else PendingCount(leds[..|leds| - 1]) + if Pending(leds[|leds| - 1]) then 1 else 0
  }

  function Nibble(midiChannel: byte, l: Led): (n: byte)
    ensures n < 16
  {
    (if l.sendChannel != CHANNEL_AGNOSTIC then l.sendChannel as int
     else if midiChannel == 0 then 0 else midiChannel as int - 1) % 16
  }

  function Status(midiChannel: byte, l: Led): byte {
    (if l.msgType == NOTE then 0x90 else 0xB0) + Nibble(midiChannel, l)
  }

  datatype Flush = Flush(leds: seq<Led>, tokens: real, sent: seq<Send>)

  function Delivered(l: Led): Led {
    l.(lastSentValue := l.desiredValue, hasLastSent := true)
  }

  /** Visits the LEDs in order, sending each pending one while a token is left. */
  function Flushed(midiChannel: byte, leds: seq<Led>, tokens: real, t: real): (f: Flush)
    ensures |f.leds| == |leds|
  {
    if leds == [] then Flush([], tokens, []) else
      var n := |leds| - 1;
      var f, l := Flushed(midiChannel, leds[..n], tokens, t), leds[n];
      if Pending(l) && f.tokens >= 1.0 then
        Flush(f.leds + [Delivered(l)], f.tokens - 1.0,
              f.sent + [Send(t, n, Status(midiChannel, l), l.addr, l.desiredValue)])
      else Flush(f.leds + [l], f.tokens, f.sent)
  }

  function Pumped(rate: real, midiChannel: byte, s: Tracker, t: real): Tracker {
    var f := Flushed(midiChannel, s.leds, Refilled(rate, s, t), t);
    Tracker(f.leds, f.tokens, t, s.sent + f.sent)
  }

  // ---- one pump ----------------------------------------------------------

  /** A pump sends as many pending values as there are whole tokens, and each send
      costs one token and settles one LED. */
  lemma {:induction false} FlushCount(midiChannel: byte, leds: seq<Led>, tokens: real, t: real)
    requires tokens >= 0.0
    ensures var f := Flushed(midiChannel, leds, tokens, t);
            |f.sent| == Least(PendingCount(leds), tokens.Floor) &&
            f.tokens == tokens - |f.sent| as real && f.tokens >= 0.0 &&
            PendingCount(f.leds) == PendingCount(leds) - |f.sent|
  {
    if leds == [] {
    } else {
      var n := |leds| - 1;
      FlushCount(midiChannel, leds[..n], tokens, t);
      var f, g := Flushed(midiChannel, leds[..n], tokens, t), Flushed(midiChannel, leds, tokens, t);
      assert g.leds[..n] == f.leds;
      assert f.tokens >= 1.0 <==> |f.sent| + 1 <= tokens.Floor;
    }
  }

  /** `1/rate` seconds after the last pump, and at the first one, there is at least
      one token, if the bucket can hold one at all. */
  lemma EnoughCredit(rate: real, s: Tracker, t: real)
    requires rate >= 1.0 && s.tokens >= 0.0
    requires s.lastPumpT < 0.0 || (t - s.lastPumpT) * rate >= 1.0
    ensures Refilled(rate, s, t) >= 1.0
  {
    if s.lastPumpT >= 0.0 && t <= s.lastPumpT {
      NotPositive(t - s.lastPumpT, rate);
    }
  }

  lemma NotPositive(x: real, rate: real)
    requires x <= 0.0 && rate >= 0.0
    ensures x * rate <= 0.0
  {
  }

  /** With desired values fixed, each pump at least `1/rate` after the last one
      lowers a nonzero pending count, and at zero nothing is sent. */
  lemma PumpProgress(rate: real, midiChannel: byte, s: Tracker, t: real)
    requires rate >= 1.0 && s.tokens >= 0.0
    requires s.lastPumpT < 0.0 || (t - s.lastPumpT) * rate >= 1.0
    ensures var p := Pumped(rate, midiChannel, s, t);
            (PendingCount(s.leds) > 0 ==> PendingCount(p.leds) < PendingCount(s.leds)) &&
            (PendingCount(s.leds) == 0 ==> p.sent == s.sent && PendingCount(p.leds) == 0)
  {
    EnoughCredit(rate, s, t);
    FlushCount(midiChannel, s.leds, Refilled(rate, s, t), t);
    assert Refilled(rate, s, t).Floor >= 1;
  }

  // ---- runs --------------------------------------------------------------

  datatype Event =
    | Want(addr: byte, channel: byte, msgType: byte, sendChannel: byte, value: byte)
    | Pump(t: real)

  function Next(rate: real, midiChannel: byte, s: Tracker, e: Event): Tracker {
    match e
    case Want(addr, channel, msgType, sendChannel, value) =>
      s.(leds := Wanted(s.leds, addr, channel, msgType, sendChannel, value))
    case Pump(t) => Pumped(rate, midiChannel, s, t)
  }

  function Run(rate: real, midiChannel: byte, events: seq<Event>): Tracker {
    if events == [] then IDLE
    else Next(rate, midiChannel, Run(rate, midiChannel, events[..|events| - 1]), events[|events| - 1])
  }

  /** Pump times are nonnegative and do not go backwards. */
  predicate InOrder(events: seq<Event>) {
    (forall i :: 0 <= i < |events| && events[i].Pump? ==> events[i].t >= 0.0) &&
    (forall i, j :: 0 <= i < j < |events| && events[i].Pump? && events[j].Pump? ==> events[i].t <= events[j].t)
  }

  lemma {:induction false} LastPumpIsPast(rate: real, midiChannel: byte, events: seq<Event>, t: real)
    requires InOrder(events) && t >= 0.0
    requires forall i :: 0 <= i < |events| && events[i].Pump? ==> events[i].t <= t
    ensures Run(rate, midiChannel, events).lastPumpT <= t
    ensures Run(rate, midiChannel, events).lastPumpT == NEVER || Run(rate, midiChannel, events).lastPumpT >= 0.0
  {
    if events == [] {
    } else {
      LastPumpIsPast(rate, midiChannel, events[..|events| - 1], t);
    }
  }

  // ---- the rate ----------------------------------------------------------

  function CountIn(sent: seq<Send>, t1: real, t2: real): nat {
    if sent == [] then 0
    else CountIn(sent[..|sent| - 1], t1, t2) + if t1 <= sent[|sent| - 1].time <= t2 then 1 else 0
  }

  lemma {:induction false} CountConcat(a: seq<Send>, b: seq<Send>, t1: real, t2: real)
    ensures CountIn(a + b, t1, t2) == CountIn(a, t1, t2) + CountIn(b, t1, t2)
  {
    if b == [] {
      assert a + b == a;
    } else {
      CountConcat(a, b[..|b| - 1], t1, t2);
      assert (a + b)[..|a + b| - 1] == a + b[..|b| - 1];
    }
  }

  predicate AllAt(sent: seq<Send>, t: real) {
    forall k :: 0 <= k < |sent| ==> sent[k].time == t
  }

  lemma {:induction false} CountAt(sent: seq<Send>, t: real, t1: real, t2: real)
    requires AllAt(sent, t)
    ensures CountIn(sent, t1, t2) == if t1 <= t <= t2 then |sent| else 0
  {
    if sent == [] {
    } else {
      CountAt(sent[..|sent| - 1], t, t1, t2);
    }
  }

  lemma {:induction false} FlushedAt(midiChannel: byte, leds: seq<Led>, tokens: real, t: real)
    ensures AllAt(Flushed(midiChannel, leds, tokens, t).sent, t)
  {
    if leds == [] {
    } else {
      FlushedAt(midiChannel, leds[..|leds| - 1], tokens, t);
    }
  }

  /** Nothing was sent after the last pump. */
  predicate SentBy(s: Tracker) {
    forall k :: 0 <= k < |s.sent| ==> s.sent[k].time <= s.lastPumpT
  }

  lemma {:induction false} CountUpTo(sent: seq<Send>, t1: real, t2: real, t3: real)
    requires t2 <= t3 && forall k :: 0 <= k < |sent| ==> sent[k].time <= t2
    ensures CountIn(sent, t1, t2) == CountIn(sent, t1, t3)
  {
    if sent == [] {
    } else {
      CountUpTo(sent[..|sent| - 1], t1, t2, t3);
    }
  }

  /** One second's worth and `rate` a second from `t1` to `t`. */
  function Allowed(rate: real, t1: real, t: real): real {
    rate * (1.0 + (t - t1))
  }

  lemma AllowedLater(rate: real, t1: real, u: real, t: real)
    ensures Allowed(rate, t1, t) == Allowed(rate, t1, u) + rate * (t - u)
  {
  }

  lemma AllowedGrows(rate: real, t1: real, u: real, t: real)
    requires rate >= 0.0 && u <= t
    ensures Allowed(rate, t1, u) <= Allowed(rate, t1, t) && Allowed(rate, t1, t1) == rate
  {
    AllowedLater(rate, t1, u, t);
    Nonnegative(t - u, rate);
  }

  /** What the sends since `t1` and the tokens left add up to. */
  predicate WithinBudget(rate: real, s: Tracker, t1: real) {
    s.tokens >= 0.0 &&
    if s.lastPumpT >= t1 then
      CountIn(s.sent, t1, s.lastPumpT) as real + s.tokens <= Allowed(rate, t1, s.lastPumpT)
    else CountIn(s.sent, t1, s.lastPumpT) == 0
  }

  predicate Sound(rate: real, s: Tracker) {
    0.0 <= s.tokens <= rate && SentBy(s) && (s.lastPumpT < 0.0 ==> s.sent == [])
  }

  lemma RefillBounds(rate: real, s: Tracker, t: real)
    requires rate >= 0.0 && Sound(rate, s) && s.lastPumpT <= t
    ensures 0.0 <= Refilled(rate, s, t) <= rate
    ensures s.lastPumpT >= 0.0 ==> Refilled(rate, s, t) <= s.tokens + rate * (t - s.lastPumpT)
  {
    Nonnegative(t - s.lastPumpT, rate);
  }

  lemma Nonnegative(x: real, rate: real)
    requires x >= 0.0 && rate >= 0.0
    ensures x * rate >= 0.0 && rate * x == x * rate
  {
  }

  lemma PumpSound(rate: real, midiChannel: byte, s: Tracker, t: real)
    requires rate >= 0.0 && Sound(rate, s) && s.lastPumpT <= t && t >= 0.0
    ensures Sound(rate, Pumped(rate, midiChannel, s, t))
  {
    RefillBounds(rate, s, t);
    FlushCount(midiChannel, s.leds, Refilled(rate, s, t), t);
    FlushedAt(midiChannel, s.leds, Refilled(rate, s, t), t);
  }

  lemma PumpCount(rate: real, midiChannel: byte, s: Tracker, t: real, t1: real, t2: real)
    requires SentBy(s) && s.lastPumpT <= t
    ensures var f := Flushed(midiChannel, s.leds, Refilled(rate, s, t), t);
            CountIn(Pumped(rate, midiChannel, s, t).sent, t1, t2)
            == CountIn(s.sent, t1, t2) + (if t1 <= t <= t2 then |f.sent| else 0)
  {
    var f := Flushed(midiChannel, s.leds, Refilled(rate, s, t), t);
    FlushedAt(midiChannel, s.leds, Refilled(rate, s, t), t);
    CountConcat(s.sent, f.sent, t1, t2);
    CountAt(f.sent, t, t1, t2);
  }

  lemma Spent(rate: real, count: nat, k: nat, credit: real, tokens: real, t1: real, u: real, t: real)
    requires rate >= 0.0 && u <= t && t1 <= t && credit <= rate
    requires u >= t1 ==> credit <= tokens + rate * (t - u) && count as real + tokens <= Allowed(rate, t1, u)
    requires u < t1 ==> count == 0
    ensures (count + k) as real + (credit - k as real) <= Allowed(rate, t1, t)
  {
    AllowedLater(rate, t1, u, t);
    AllowedGrows(rate, t1, t1, t);
  }

  /** A pump sends at most what it was credited. */
  lemma PumpBudget(rate: real, midiChannel: byte, s: Tracker, t: real, t1: real)
    requires rate >= 0.0 && Sound(rate, s) && s.lastPumpT <= t && t1 >= 0.0
    requires WithinBudget(rate, s, t1)
    ensures WithinBudget(rate, Pumped(rate, midiChannel, s, t), t1)
  {
    var credit := Refilled(rate, s, t);
    var k := |Flushed(midiChannel, s.leds, credit, t).sent|;
    RefillBounds(rate, s, t);
    FlushCount(midiChannel, s.leds, credit, t);
    PumpCount(rate, midiChannel, s, t, t1, t);
    CountUpTo(s.sent, t1, s.lastPumpT, t);
    if t >= t1 { Spent(rate, CountIn(s.sent, t1, t), k, credit, s.tokens, t1, s.lastPumpT, t); }
  }

  lemma {:induction false} RunWithinBudget(rate: real, midiChannel: byte, events: seq<Event>, t1: real)
    requires rate >= 0.0 && InOrder(events) && t1 >= 0.0
    ensures Sound(rate, Run(rate, midiChannel, events)) && WithinBudget(rate, Run(rate, midiChannel, events), t1)
  {
    if events == [] {
    } else {
      var n := |events| - 1;
      RunWithinBudget(rate, midiChannel, events[..n], t1);
      if events[n].Pump? {
        var s := Run(rate, midiChannel, events[..n]);
        LastPumpIsPast(rate, midiChannel, events[..n], events[n].t);
        PumpSound(rate, midiChannel, s, events[n].t);
        PumpBudget(rate, midiChannel, s, events[n].t, t1);
      }
    }
  }

  /** In every run and every window, no more than `rate` messages a second, plus one
      second's worth. */
  lemma {:induction false} WindowBound(rate: real, midiChannel: byte, events: seq<Event>, t1: real, t2: real)
    requires rate >= 0.0 && InOrder(events) && 0.0 <= t1 <= t2
    ensures CountIn(Run(rate, midiChannel, events).sent, t1, t2) as real <= Allowed(rate, t1, t2)
  {
    var p := Run(rate, midiChannel, events);
    AllowedGrows(rate, t1, t1, t2);
    if events == [] {
    } else {
      var n := |events| - 1;
      var s := Run(rate, midiChannel, events[..n]);
      WindowBound(rate, midiChannel, events[..n], t1, t2);
      RunWithinBudget(rate, midiChannel, events, t1);
      RunWithinBudget(rate, midiChannel, events[..n], t1);
      if events[n].Pump? {
        LastPumpIsPast(rate, midiChannel, events[..n], events[n].t);
        LatestPump(rate, midiChannel, s, events[n].t, t1, t2, p);
      }
    }
  }

  lemma LatestPump(rate: real, midiChannel: byte, s: Tracker, t: real, t1: real, t2: real, p: Tracker)
    requires p == Pumped(rate, midiChannel, s, t) && rate >= 0.0 && 0.0 <= t1 <= t2
    requires SentBy(s) && s.lastPumpT <= t && Sound(rate, p) && WithinBudget(rate, p, t1)
    requires CountIn(s.sent, t1, t2) as real <= Allowed(rate, t1, t2)
    ensures CountIn(p.sent, t1, t2) as real <= Allowed(rate, t1, t2)
  {
    PumpCount(rate, midiChannel, s, t, t1, t2);
    if t1 <= t <= t2 {
      CountUpTo(p.sent, t1, t, t2);
      AllowedGrows(rate, t1, t, t2);
    }
  }

  /** A bucket that cannot hold a whole token never sends at all. */
  lemma {:induction false} SlowRateIsSilent(rate: real, midiChannel: byte, events: seq<Event>)
    requires 0.0 <= rate < 1.0 && InOrder(events)
    ensures Run(rate, midiChannel, events).sent == []
  {
    if events == [] {
    } else {
      var n := |events| - 1;
      SlowRateIsSilent(rate, midiChannel, events[..n]);
      RunWithinBudget(rate, midiChannel, events[..n], 0.0);
      if events[n].Pump? {
        var s := Run(rate, midiChannel, events[..n]);
        LastPumpIsPast(rate, midiChannel, events[..n], events[n].t);
        RefillBounds(rate, s, events[n].t);
        FlushCount(midiChannel, s.leds, Refilled(rate, s, events[n].t), events[n].t);
      }
    }
  }

  // ---- change detection --------------------------------------------------

  /** The value most recently sent for LED `led`. */
  function LastValue(sent: seq<Send>, led: nat): Option<byte> {
    if sent == [] then None
    else if sent[|sent| - 1].led == led then Some(sent[|sent| - 1].value)
    else LastValue(sent[..|sent| - 1], led)
  }

  /** No LED is sent a value it already shows. */
  predicate NoRepeats(sent: seq<Send>) {
    forall k :: 0 <= k < |sent| ==> LastValue(sent[..k], sent[k].led) != Some(sent[k].value)
  }

  predicate Remembers(leds: seq<Led>, sent: seq<Send>) {
    (forall i :: 0 <= i < |leds| ==>
      LastValue(sent, i) == if leds[i].hasLastSent then Some(leds[i].lastSentValue) else None) &&
    (forall k :: 0 <= k < |sent| ==> sent[k].led < |leds|)
  }

  lemma SendRemembered(sent: seq<Send>, s: Send)
    ensures forall i: nat :: LastValue(sent + [s], i) == if i == s.led then Some(s.value) else LastValue(sent, i)
    ensures NoRepeats(sent + [s]) <==> NoRepeats(sent) && LastValue(sent, s.led) != Some(s.value)
  {
    var all := sent + [s];
    assert all[..|all| - 1] == sent;
    assert forall k :: 0 <= k < |sent| ==> all[..k] == sent[..k];
    if NoRepeats(all) {
      forall k | 0 <= k < |sent| ensures LastValue(sent[..k], sent[k].led) != Some(sent[k].value) {
        assert all[k] == sent[k];
      }
      assert all[|sent|] == s;
    }
  }

  lemma {:induction false} FlushRemembers(
      midiChannel: byte, leds: seq<Led>, n: nat, tokens: real, t: real, sent: seq<Send>)
    requires n <= |leds| && Remembers(leds, sent) && NoRepeats(sent)
    ensures var f := Flushed(midiChannel, leds[..n], tokens, t);
            Remembers(f.leds + leds[n..], sent + f.sent) && NoRepeats(sent + f.sent)
  {
    if n == 0 {
      assert sent + [] == sent && [] + leds[0..] == leds;
    } else {
      FlushRemembers(midiChannel, leds, n - 1, tokens, t, sent);
      FlushOne(midiChannel, leds, n - 1, tokens, t, sent);
    }
  }

  lemma DeliveryRemembered(leds: seq<Led>, sent: seq<Send>, n: nat, s: Send)
    requires n < |leds| && Remembers(leds, sent) && NoRepeats(sent) && Pending(leds[n])
    requires s.led == n && s.value == leds[n].desiredValue
    ensures Remembers(leds[n := Delivered(leds[n])], sent + [s]) && NoRepeats(sent + [s])
  {
    SendRemembered(sent, s);
  }

  /** What visiting LED `n` adds. */
  lemma FlushStep(midiChannel: byte, leds: seq<Led>, n: nat, tokens: real, t: real)
    requires n < |leds|
    ensures var f, l := Flushed(midiChannel, leds[..n], tokens, t), leds[n];
            Flushed(midiChannel, leds[..n + 1], tokens, t)
            == if Pending(l) && f.tokens >= 1.0 then
                 Flush(f.leds + [Delivered(l)], f.tokens - 1.0,
                       f.sent + [Send(t, n, Status(midiChannel, l), l.addr, l.desiredValue)])
               else Flush(f.leds + [l], f.tokens, f.sent)
  {
    assert leds[..n + 1][..n] == leds[..n];
  }

  lemma Replaced<T>(front: seq<T>, x: T, y: T, all: seq<T>, n: nat)
    requires |front| == n < |all| && x == all[n]
    ensures (front + [x]) + all[n + 1..] == front + all[n..]
    ensures (front + [y]) + all[n + 1..] == (front + all[n..])[n := y]
  {
  }

  lemma FlushOne(midiChannel: byte, leds: seq<Led>, n: nat, tokens: real, t: real, sent: seq<Send>)
    requires n < |leds|
    requires var f := Flushed(midiChannel, leds[..n], tokens, t);
             Remembers(f.leds + leds[n..], sent + f.sent) && NoRepeats(sent + f.sent)
    ensures var f := Flushed(midiChannel, leds[..n + 1], tokens, t);
            Remembers(f.leds + leds[n + 1..], sent + f.sent) && NoRepeats(sent + f.sent)
  {
    var f, l := Flushed(midiChannel, leds[..n], tokens, t), leds[n];
    FlushStep(midiChannel, leds, n, tokens, t);
    Replaced(f.leds, l, Delivered(l), leds, n);
    if Pending(l) && f.tokens >= 1.0 {
      var s := Send(t, n, Status(midiChannel, l), l.addr, l.desiredValue);
      DeliveryRemembered(f.leds + leds[n..], sent + f.sent, n, s);
      assert sent + (f.sent + [s]) == (sent + f.sent) + [s];
    }
  }

  lemma WantRemembers(leds: seq<Led>, sent: seq<Send>, addr: byte, channel: byte, msgType: byte, sendChannel: byte, value: byte)
    requires Remembers(leds, sent)
    ensures Remembers(Wanted(leds, addr, channel, msgType, sendChannel, value), sent)
  {
    NeverSent(sent, |leds|);
  }

  lemma {:induction false} NeverSent(sent: seq<Send>, led: nat)
    requires forall k :: 0 <= k < |sent| ==> sent[k].led < led
    ensures LastValue(sent, led) == None
  {
    if sent == [] {
    } else {
      NeverSent(sent[..|sent| - 1], led);
    }
  }

  /** The value most recently sent under that status and address, to whatever LED
      listens there. */
  function LastOnWire(sent: seq<Send>, status: byte, addr: byte): Option<byte> {
    if sent == [] then None
    else if sent[|sent| - 1].status == status && sent[|sent| - 1].addr == addr then Some(sent[|sent| - 1].value)
    else LastOnWire(sent[..|sent| - 1], status, addr)
  }

  /** Two sends go to one tracked LED exactly when they go out alike. */
  predicate OneLedPerWire(sent: seq<Send>) {
    forall k, l :: 0 <= k < l < |sent| ==>
      (sent[k].led == sent[l].led <==> sent[k].status == sent[l].status && sent[k].addr == sent[l].addr)
  }

  lemma {:induction false} WireIsLed(sent: seq<Send>, n: nat, s: Send)
    requires n <= |sent|
    requires forall k :: 0 <= k < n ==> (sent[k].led == s.led <==> sent[k].status == s.status && sent[k].addr == s.addr)
    ensures LastOnWire(sent[..n], s.status, s.addr) == LastValue(sent[..n], s.led)
  {
    if n == 0 {
    } else {
      assert sent[..n][..n - 1] == sent[..n - 1];
      WireIsLed(sent, n - 1, s);
    }
  }

  /** So the physical LED is not sent a value it shows either, as long as no two
      tracked LEDs share a status and address and none changes its own. */
  lemma WireNeverRepeats(sent: seq<Send>)
    requires NoRepeats(sent) && OneLedPerWire(sent)
    ensures forall k :: 0 <= k < |sent| ==>
              LastOnWire(sent[..k], sent[k].status, sent[k].addr) != Some(sent[k].value)
  {
    forall k | 0 <= k < |sent| ensures LastOnWire(sent[..k], sent[k].status, sent[k].addr) != Some(sent[k].value) {
      WireIsLed(sent, k, sent[k]);
    }
  }

  /** LED 5 as painted for one channel of a range that is not channel-significant. */
  function Painted(channel: byte): Led {
    Led(5, channel, NOTE, CHANNEL_AGNOSTIC, true, 1, false, 0)
  }

  function Paint(channel: byte): Event {
    Want(5, channel, NOTE, CHANNEL_AGNOSTIC, 1)
  }

  lemma {:induction false} BothPainted(rate: real)
    ensures Run(rate, 1, [Paint(0), Paint(1)]) == Tracker([Painted(0), Painted(1)], 0.0, NEVER, [])
  {
    assert [Paint(0), Paint(1)][..1] == [Paint(0)] && [Paint(0)][..0] == [];
    assert Run(rate, 1, []) == IDLE;
    assert Run(rate, 1, [Paint(0)]) == Tracker([Painted(0)], 0.0, NEVER, []);
    assert Find([Painted(0)], 5, 1) == 1;
  }

  lemma {:induction false} BothSent()
    ensures Flushed(1, [Painted(0), Painted(1)], 2.0, 0.0).sent == [Send(0.0, 0, 0x90, 5, 1), Send(0.0, 1, 0x90, 5, 1)]
  {
    assert [Painted(0), Painted(1)][..1] == [Painted(0)] && [Painted(0)][..0] == [];
    assert Flushed(1, [], 2.0, 0.0) == Flush([], 2.0, []);
    assert Flushed(1, [Painted(0)], 2.0, 0.0) == Flush([Delivered(Painted(0))], 1.0, [Send(0.0, 0, 0x90, 5, 1)]);
  }

  /** Two channels of a range that is not channel-significant are two tracked LEDs
      behind one status and address: painting both sends the one LED its value twice. */
  lemma {:induction false} SharedWireRepeats()
    ensures Run(2.0, 1, [Paint(0), Paint(1), Pump(0.0)]).sent == [Send(0.0, 0, 0x90, 5, 1), Send(0.0, 1, 0x90, 5, 1)]
  {
    assert [Paint(0), Paint(1), Pump(0.0)][..2] == [Paint(0), Paint(1)];
    BothPainted(2.0);
    BothSent();
  }

  /** In every run, whatever the rate, no tracked LED is sent the value it was sent last. */
  lemma {:induction false} NeverSentTwice(rate: real, midiChannel: byte, events: seq<Event>)
    ensures var s := Run(rate, midiChannel, events);
            Remembers(s.leds, s.sent) && NoRepeats(s.sent)
  {
    if events == [] {
    } else {
      var n := |events| - 1;
      NeverSentTwice(rate, midiChannel, events[..n]);
      var s := Run(rate, midiChannel, events[..n]);
      match events[n]
      case Want(addr, channel, msgType, sendChannel, value) =>
        WantRemembers(s.leds, s.sent, addr, channel, msgType, sendChannel, value);
      case Pump(t) =>
        FlushRemembers(midiChannel, s.leds, |s.leds|, Refilled(rate, s, t), t, s.sent);
        assert s.leds[..|s.leds|] == s.leds;
        var f := Flushed(midiChannel, s.leds, Refilled(rate, s, t), t);
        assert f.leds + s.leds[|s.leds|..] == f.leds;
    }
  }
}
