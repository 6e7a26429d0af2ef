/** The packets and the routing of artnet_router.cpp as values: ArtDmx and ArtSync of
    Art-Net 4, the router's state and what each call makes of it. */
module ArtNet {
  import opened Bytes
  import opened Destinations

  const MAX_UNIVERSES: nat := 8
  const UNIVERSE_SIZE: nat := 512
  const ID: seq<byte> := [0x41, 0x72, 0x74, 0x2D, 0x4E, 0x65, 0x74, 0]
  const BROADCAST: u32 := 0xFFFF_FFFF
  const SYNC_PACKET: seq<byte> := ID + [0x00, 0x52, 0, 14, 0, 0]

  // ---- packets -----------------------------------------------------------

  function Clamped(data: seq<byte>): (d: seq<byte>)
    ensures |d| <= UNIVERSE_SIZE && d <= data
  {
    if |data| > UNIVERSE_SIZE then data[..UNIVERSE_SIZE] else data
  }

  function Header(wireUniverse: u16, sequence: byte, payload: nat): (h: seq<byte>)
    requires payload < 0x1_0000
    ensures |h| == 18
  {
    ID + [0x00, 0x50, 0, 14, sequence, 0, wireUniverse % 256, wireUniverse / 256 % 128, payload / 256, payload % 256]
  }

  /** An ArtDmx packet: the payload is padded to an even length. */
  function DmxPacket(wireUniverse: u16, sequence: byte, data: seq<byte>): (p: seq<byte>)
    ensures |p| <= 18 + UNIVERSE_SIZE
  {
    var d := Clamped(data);
    Header(wireUniverse, sequence, |d| + |d| % 2) + d + if |d| % 2 == 1 then [0] else []
  }

  /** A receiver reads back the sequence number, the 15-bit port address, an even
      length and the data. */
  lemma DmxFields(wireUniverse: u16, sequence: byte, data: seq<byte>)
    ensures var p, d := DmxPacket(wireUniverse, sequence, data), Clamped(data);
            |p| >= 18 && p[..8] == ID && U16At(p, 8) == 0x5000 && p[12] == sequence &&
            U16At(p, 14) == wireUniverse % 0x8000 &&
            256 * (p[16] as int) + p[17] as int == |p| - 18 && |p| % 2 == 0 &&
            |p| - 18 <= |d| + 1 && p[18..18 + |d|] == d
  {
    var p := DmxPacket(wireUniverse, sequence, data);
    var h := Header(wireUniverse, sequence, |Clamped(data)| + |Clamped(data)| % 2);
    assert forall k :: 0 <= k < 18 ==> p[k] == h[k];
    assert p[..8] == h[..8] == ID;
  }

  // ---- state -------------------------------------------------------------

  /** Which call a datagram comes from. */
  datatype Origin = Universe(index: nat) | Sync

  datatype Datagram = Datagram(origin: Origin, ip: u32, port: u16, bytes: seq<byte>)

  datatype Config = Config(fallbackIp: u32, port: u16, syncBroadcast: bool)

  datatype Router = Router(
    dest: seq<ArtNetDest>, sequence: seq<byte>, active: seq<bool>, drops: u32, log: seq<Datagram>)

  predicate WellSized(r: Router) {
    |r.dest| == MAX_UNIVERSES && |r.sequence| == MAX_UNIVERSES && |r.active| == MAX_UNIVERSES
  }

  function Fresh(): (r: Router)
    ensures WellSized(r)
  {
    Router(seq(MAX_UNIVERSES, i requires 0 <= i < MAX_UNIVERSES => ArtNetDest(0, i)), seq(MAX_UNIVERSES, _ => 1),
           seq(MAX_UNIVERSES, _ => false), 0, [])
  }

  function Resolved(c: Config, d: ArtNetDest): u32 {
    if d.ip != 0 then d.ip else c.fallbackIp
  }

  function NextSequence(s: byte): byte {
    if s == 255 then 1 else s + 1
  }

  // ---- calls -------------------------------------------------------------

  function Rerouted(r: Router, u: byte, d: ArtNetDest): (s: Router)
    requires WellSized(r)
    ensures WellSized(s)
  {
    if u >= MAX_UNIVERSES then r else r.(dest := r.dest[u := d])
  }

  function DataFor(c: Config, r: Router, u: nat, data: seq<byte>): Datagram
    requires WellSized(r) && u < MAX_UNIVERSES
  {
    Datagram(Universe(u), Resolved(c, r.dest[u]), c.port, DmxPacket(r.dest[u].wireUniverse, r.sequence[u], data))
  }

  function Sent(c: Config, r: Router, u: byte, data: seq<byte>): (s: Router)
    requires WellSized(r)
    ensures WellSized(s)
  {
    if u >= MAX_UNIVERSES then r
    else if Resolved(c, r.dest[u]) == 0 then
      r.(drops := (r.drops + 1) % 0x1_0000_0000, active := r.active[u := false])
    else
      r.(sequence := r.sequence[u := NextSequence(r.sequence[u])], active := r.active[u := true],
         log := r.log + [DataFor(c, r, u, data)])
  }

  /** The distinct destinations of the universes below `n` that are active. */
  function Targets(c: Config, dest: seq<ArtNetDest>, active: seq<bool>, n: nat): (ips: seq<u32>)
    requires n <= |dest| == |active|
  {
    if n == 0 then [] else
      var front := Targets(c, dest, active, n - 1);
      var ip := Resolved(c, dest[n - 1]);
      if active[n - 1] && ip != 0 && ip !in front then front + [ip] else front
  }

  function SyncTo(c: Config, ip: u32): Datagram {
    Datagram(Sync, ip, c.port, SYNC_PACKET)
  }

  function Syncs(c: Config, ips: seq<u32>): (s: seq<Datagram>)
    ensures |s| == |ips|
  {
    seq(|ips|, i requires 0 <= i < |ips| => SyncTo(c, ips[i]))
  }

  function FrameEnded(c: Config, r: Router): (s: Router)
    requires WellSized(r)
    ensures WellSized(s)
  {
    if c.syncBroadcast then r.(log := r.log + [SyncTo(c, BROADCAST)])
    else
      r.(active := seq(MAX_UNIVERSES, _ => false),
         log := r.log + Syncs(c, Targets(c, r.dest, r.active, MAX_UNIVERSES)))
  }

  // ---- sequence numbers over every run -----------------------------------

  datatype Event =
    | SetDest(u: byte, dest: ArtNetDest)
    | Send(u: byte, data: seq<byte>)
    | FrameEnd

  function Next(c: Config, r: Router, e: Event): (s: Router)
    requires WellSized(r)
    ensures WellSized(s)
  {
    match e
    case SetDest(u, d) => Rerouted(r, u, d)
    case Send(u, data) => Sent(c, r, u, data)
    case FrameEnd => FrameEnded(c, r)
  }

  function Run(c: Config, events: seq<Event>): (r: Router)
    ensures WellSized(r)
  {
    if events == [] then Fresh() else Next(c, Run(c, events[..|events| - 1]), events[|events| - 1])
  }

  /** How many packets the log holds for universe `u`. */
  function CountFor(log: seq<Datagram>, u: nat): nat {
    if log == [] then 0
    else CountFor(log[..|log| - 1], u) + if log[|log| - 1].origin == Universe(u) then 1 else 0
  }

  function NthSequence(n: nat): byte {
    n % 255 + 1
  }

  /** Each packet for universe `u` carries the sequence number of its place. */
  predicate Numbered(log: seq<Datagram>, u: nat) {
    forall i :: 0 <= i < |log| && log[i].origin == Universe(u) ==>
      |log[i].bytes| >= 18 && log[i].bytes[12] == NthSequence(CountFor(log[..i], u))
  }

  lemma NumberedPush(log: seq<Datagram>, d: Datagram, u: nat)
    requires Numbered(log, u)
    requires d.origin == Universe(u) ==> |d.bytes| >= 18 && d.bytes[12] == NthSequence(CountFor(log, u))
    ensures Numbered(log + [d], u)
    ensures CountFor(log + [d], u) == CountFor(log, u) + if d.origin == Universe(u) then 1 else 0
  {
    var all := log + [d];
    assert all[..|log|] == log;
    forall i | 0 <= i < |log| && all[i].origin == Universe(u)
      ensures |all[i].bytes| >= 18 && all[i].bytes[12] == NthSequence(CountFor(all[..i], u))
    {
      assert all[..i] == log[..i] && all[i] == log[i];
    }
  }

  lemma {:induction false} SyncsUncounted(c: Config, log: seq<Datagram>, ips: seq<u32>, u: nat)
    requires Numbered(log, u)
    ensures Numbered(log + Syncs(c, ips), u) && CountFor(log + Syncs(c, ips), u) == CountFor(log, u)
  {
    if ips == [] {
      assert log + Syncs(c, ips) == log;
    } else {
      var n := |ips| - 1;
      SyncsUncounted(c, log, ips[..n], u);
      NumberedPush(log + Syncs(c, ips[..n]), SyncTo(c, ips[n]), u);
      assert log + Syncs(c, ips) == (log + Syncs(c, ips[..n])) + [SyncTo(c, ips[n])];
    }
  }

  /** The counter is where the packets sent have brought it. */
  predicate InStep(r: Router, u: nat)
    requires WellSized(r) && u < MAX_UNIVERSES
  {
    Numbered(r.log, u) && r.sequence[u] == NthSequence(CountFor(r.log, u))
  }

  lemma DataNumbered(c: Config, r: Router, u: nat, data: seq<byte>)
    requires WellSized(r) && u < MAX_UNIVERSES
    ensures |DataFor(c, r, u, data).bytes| >= 18 && DataFor(c, r, u, data).bytes[12] == r.sequence[u]
  {
    DmxFields(r.dest[u].wireUniverse, r.sequence[u], data);
  }

  lemma SendInStep(c: Config, r: Router, v: byte, data: seq<byte>, u: nat)
    requires WellSized(r) && u < MAX_UNIVERSES && InStep(r, u)
    ensures InStep(Sent(c, r, v, data), u)
  {
    if v < MAX_UNIVERSES {
      if Resolved(c, r.dest[v]) != 0 {
        DataNumbered(c, r, v as int, data);
        NumberedPush(r.log, DataFor(c, r, v as int, data), u);
      }
    }
  }

  /** Over every run the n-th packet sent for a universe carries sequence number
      ((n-1) mod 255) + 1, whatever was dropped, rerouted or synchronised between. */
  lemma {:induction false} SequenceNumbers(c: Config, events: seq<Event>, u: nat)
    requires u < MAX_UNIVERSES
    ensures InStep(Run(c, events), u)
  {
    if events == [] {
    } else {
      var n := |events| - 1;
      var r := Run(c, events[..n]);
      SequenceNumbers(c, events[..n], u);
      match events[n]
      case SetDest(v, d) =>
      case Send(v, data) =>
        SendInStep(c, r, v, data, u);
      case FrameEnd =>
        if c.syncBroadcast {
          NumberedPush(r.log, SyncTo(c, BROADCAST), u);
        } else {
          SyncsUncounted(c, r.log, Targets(c, r.dest, r.active, MAX_UNIVERSES), u);
        }
    }
  }

  // ---- synchronisation ---------------------------------------------------

  predicate NoRepeats(ips: seq<u32>) {
    forall i, j :: 0 <= i < j < |ips| ==> ips[i] != ips[j]
  }

  /** The targets are exactly the current destinations of active universes, once each. */
  lemma {:induction false} TargetsExact(c: Config, dest: seq<ArtNetDest>, active: seq<bool>, n: nat)
    requires n <= |dest| == |active|
    ensures NoRepeats(Targets(c, dest, active, n))
    ensures forall ip :: ip in Targets(c, dest, active, n) <==>
                         ip != 0 && exists u :: 0 <= u < n && active[u] && Resolved(c, dest[u]) == ip
  {
    if n == 0 {
    } else {
      TargetsExact(c, dest, active, n - 1);
    }
  }

  datatype Request = Request(u: byte, data: seq<byte>)

  /** The sends of one frame. */
  function Frame(c: Config, r: Router, sends: seq<Request>): (s: Router)
    requires WellSized(r)
    ensures WellSized(s)
  {
    if sends == [] then r
    else Sent(c, Frame(c, r, sends[..|sends| - 1]), sends[|sends| - 1].u, sends[|sends| - 1].data)
  }

  predicate NoneActive(r: Router) {
    forall u :: 0 <= u < |r.active| ==> !r.active[u]
  }

  /** Universe `u` got data to `ip` in these datagrams. */
  ghost predicate Reached(log: seq<Datagram>, u: nat, ip: u32) {
    exists k :: 0 <= k < |log| && log[k].origin == Universe(u) && log[k].ip == ip
  }

  /** While the table stands still, the active universes are those that got data,
      each at its own destination. */
  lemma {:induction false} FrameActive(c: Config, r: Router, sends: seq<Request>)
    requires WellSized(r) && NoneActive(r)
    ensures var s := Frame(c, r, sends);
            s.dest == r.dest && |r.log| <= |s.log| && s.log[..|r.log|] == r.log &&
            (forall k :: |r.log| <= k < |s.log| ==>
              s.log[k].origin.Universe? && s.log[k].origin.index < MAX_UNIVERSES &&
              s.active[s.log[k].origin.index] && s.log[k].ip == Resolved(c, r.dest[s.log[k].origin.index])) &&
            (forall u :: 0 <= u < MAX_UNIVERSES && s.active[u] ==>
              Resolved(c, r.dest[u]) != 0 && Reached(s.log[|r.log|..], u, Resolved(c, r.dest[u])))
  {
    if sends == [] {
    } else {
      var n := |sends| - 1;
      FrameActive(c, r, sends[..n]);
      SendActive(c, r, Frame(c, r, sends[..n]), sends[n]);
    }
  }

  lemma SendActive(c: Config, r: Router, s: Router, q: Request)
    requires WellSized(r) && WellSized(s) && s.dest == r.dest && |r.log| <= |s.log| && s.log[..|r.log|] == r.log
    requires forall k :: |r.log| <= k < |s.log| ==>
               s.log[k].origin.Universe? && s.log[k].origin.index < MAX_UNIVERSES &&
               s.active[s.log[k].origin.index] && s.log[k].ip == Resolved(c, r.dest[s.log[k].origin.index])
    requires forall u :: 0 <= u < MAX_UNIVERSES && s.active[u] ==>
               Resolved(c, r.dest[u]) != 0 && Reached(s.log[|r.log|..], u, Resolved(c, r.dest[u]))
    ensures var t := Sent(c, s, q.u, q.data);
            t.dest == r.dest && |r.log| <= |t.log| && t.log[..|r.log|] == r.log &&
            (forall k :: |r.log| <= k < |t.log| ==>
              t.log[k].origin.Universe? && t.log[k].origin.index < MAX_UNIVERSES &&
              t.active[t.log[k].origin.index] && t.log[k].ip == Resolved(c, r.dest[t.log[k].origin.index])) &&
            (forall u :: 0 <= u < MAX_UNIVERSES && t.active[u] ==>
              Resolved(c, r.dest[u]) != 0 && Reached(t.log[|r.log|..], u, Resolved(c, r.dest[u])))
  {
    var t := Sent(c, s, q.u, q.data);
    forall u | 0 <= u < MAX_UNIVERSES && t.active[u]
      ensures Resolved(c, r.dest[u]) != 0 && Reached(t.log[|r.log|..], u, Resolved(c, r.dest[u]))
    {
      if u == q.u as int {
        var k := |t.log| - 1 - |r.log|;
        assert t.log[|r.log|..][k] == DataFor(c, s, u, q.data);
      } else {
        var k :| 0 <= k < |s.log| - |r.log| && s.log[|r.log|..][k].origin == Universe(u) &&
                 s.log[|r.log|..][k].ip == Resolved(c, r.dest[u]);
        assert t.log[|r.log|..][k] == s.log[|r.log|..][k];
      }
    }
  }

  /** In unicast mode with a table that does not change between a frame's sends and
      its end, the frame's end sends one ArtSync to each distinct address that got
      data in the frame and none to any other, and leaves no universe active. */
  lemma FrameSynchronised(c: Config, r: Router, sends: seq<Request>)
    requires WellSized(r) && NoneActive(r) && !c.syncBroadcast
    ensures var s := Frame(c, r, sends);
            var t := FrameEnded(c, s);
            var ips := Targets(c, s.dest, s.active, MAX_UNIVERSES);
            t.log == s.log + Syncs(c, ips) && NoRepeats(ips) && NoneActive(t) &&
            |r.log| <= |s.log| &&
            (forall k :: |r.log| <= k < |s.log| ==> s.log[k].ip in ips) &&
            (forall ip :: ip in ips ==> exists k :: |r.log| <= k < |s.log| && s.log[k].ip == ip)
  {
    FrameActive(c, r, sends);
    var s := Frame(c, r, sends);
    TargetsExact(c, s.dest, s.active, MAX_UNIVERSES);
    var ips := Targets(c, s.dest, s.active, MAX_UNIVERSES);
    forall k | |r.log| <= k < |s.log| ensures s.log[k].ip in ips {
      var u := s.log[k].origin.index;
      assert s.active[u] && Resolved(c, s.dest[u]) == s.log[k].ip;
    }
    forall ip | ip in ips ensures exists k :: |r.log| <= k < |s.log| && s.log[k].ip == ip {
      var u :| 0 <= u < MAX_UNIVERSES && s.active[u] && Resolved(c, s.dest[u]) == ip;
      var k :| 0 <= k < |s.log[|r.log|..]| && s.log[|r.log|..][k].ip == ip;
      assert s.log[|r.log| + k] == s.log[|r.log|..][k];
    }
  }

  /** A frame has ended, and since then at most routes were changed. */
  predicate BetweenFrames(events: seq<Event>) {
    events == [] || events[|events| - 1].FrameEnd? ||
    (events[|events| - 1].SetDest? && BetweenFrames(events[..|events| - 1]))
  }

  /** Between frames no universe is active, so every frame of every unicast run
      starts as `FrameSynchronised` needs it. */
  lemma {:induction false} FramesStartInactive(c: Config, events: seq<Event>)
    requires !c.syncBroadcast && BetweenFrames(events)
    ensures NoneActive(Run(c, events))
  {
    if events == [] {
    } else if events[|events| - 1].SetDest? {
      FramesStartInactive(c, events[..|events| - 1]);
    }
  }

  // ---- a table that changes within the frame -----------------------------

  /** Routes changed after the frame's last send. */
  function RoutesChanged(r: Router, routes: seq<(byte, ArtNetDest)>): (s: Router)
    requires WellSized(r)
    ensures WellSized(s) && s.active == r.active && s.log == r.log
  {
    if routes == [] then r
    else
      var (u, d) := routes[|routes| - 1];
      Rerouted(RoutesChanged(r, routes[..|routes| - 1]), u, d)
  }

  /** Some active universe is routed to `ip`. */
  predicate Serves(c: Config, dest: seq<ArtNetDest>, active: seq<bool>, ip: u32)
    requires |dest| == |active|
  {
    exists u :: 0 <= u < |dest| && active[u] && Resolved(c, dest[u]) == ip
  }

  /** The two tables route the active universes to the same addresses. */
  ghost predicate SameAddresses(c: Config, before: seq<ArtNetDest>, after: seq<ArtNetDest>, active: seq<bool>)
    requires |before| == |after| == |active|
  {
    forall ip: u32 :: ip != 0 ==> (Serves(c, before, active, ip) <==> Serves(c, after, active, ip))
  }

  predicate GotData(log: seq<Datagram>, from: nat, ip: u32) {
    exists k :: from <= k < |log| && log[k].ip == ip
  }

  lemma DataServed(c: Config, r: Router, sends: seq<Request>, ip: u32)
    requires WellSized(r) && NoneActive(r) && !c.syncBroadcast
    ensures var s := Frame(c, r, sends);
            GotData(s.log, |r.log|, ip) <==> ip != 0 && Serves(c, r.dest, s.active, ip)
  {
    var s := Frame(c, r, sends);
    FrameSynchronised(c, r, sends);
    FrameActive(c, r, sends);
    TargetsExact(c, s.dest, s.active, MAX_UNIVERSES);
  }

  /** Whatever routes change between the last send of a frame and its end: the
      ArtSyncs go to exactly the addresses that got data if and only if the active
      universes resolve to the same addresses as when their data was sent. */
  lemma SynchronisedIffSameAddresses(c: Config, r: Router, sends: seq<Request>, routes: seq<(byte, ArtNetDest)>)
    requires WellSized(r) && NoneActive(r) && !c.syncBroadcast
    ensures var s := Frame(c, r, sends);
            var t := RoutesChanged(s, routes);
            var ips := Targets(c, t.dest, t.active, MAX_UNIVERSES);
            FrameEnded(c, t).log == s.log + Syncs(c, ips) && NoRepeats(ips) &&
            ((forall ip: u32 :: ip in ips <==> GotData(s.log, |r.log|, ip))
             <==> SameAddresses(c, r.dest, t.dest, s.active))
  {
    var s := Frame(c, r, sends);
    var t := RoutesChanged(s, routes);
    var ips := Targets(c, t.dest, t.active, MAX_UNIVERSES);
    TargetsExact(c, t.dest, t.active, MAX_UNIVERSES);
    forall ip: u32 ensures ip in ips <==> ip != 0 && Serves(c, t.dest, s.active, ip) {}
    forall ip: u32 ensures GotData(s.log, |r.log|, ip) <==> ip != 0 && Serves(c, r.dest, s.active, ip) {
      DataServed(c, r, sends, ip);
    }
  }

  // ---- routes and sends in any order -------------------------------------

  /** Calls of one frame, routes and sends as they come. */
  predicate WithinFrame(events: seq<Event>) {
    forall i :: 0 <= i < |events| ==> !events[i].FrameEnd?
  }

  function Happened(c: Config, r: Router, events: seq<Event>): (s: Router)
    requires WellSized(r)
    ensures WellSized(s)
  {
    if events == [] then r else Next(c, Happened(c, r, events[..|events| - 1]), events[|events| - 1])
  }

  /** The table as the calls leave it. */
  function TableAfter(dest: seq<ArtNetDest>, events: seq<Event>): (t: seq<ArtNetDest>)
    requires |dest| == MAX_UNIVERSES
    ensures |t| == MAX_UNIVERSES
  {
    if events == [] then dest else
      var t, e := TableAfter(dest, events[..|events| - 1]), events[|events| - 1];
      if e.SetDest? && e.u < MAX_UNIVERSES then t[e.u := e.dest] else t
  }

  /** Universe `u` was sent to, and its last send found a route. */
  predicate RoutedLast(c: Config, dest: seq<ArtNetDest>, events: seq<Event>, u: nat)
    requires |dest| == MAX_UNIVERSES && u < MAX_UNIVERSES
  {
    events != [] &&
    var front, e := events[..|events| - 1], events[|events| - 1];
    if e.Send? && e.u as int == u then Resolved(c, TableAfter(dest, front)[u]) != 0 else RoutedLast(c, dest, front, u)
  }

  /** Some send went to `ip` by the table of its moment. */
  predicate DataWent(c: Config, dest: seq<ArtNetDest>, events: seq<Event>, ip: u32)
    requires |dest| == MAX_UNIVERSES
  {
    events != [] &&
    var front, e := events[..|events| - 1], events[|events| - 1];
    (e.Send? && e.u < MAX_UNIVERSES && ip != 0 && Resolved(c, TableAfter(dest, front)[e.u]) == ip) ||
    DataWent(c, dest, front, ip)
  }

  lemma {:induction false} HappenedState(c: Config, r: Router, events: seq<Event>)
    requires WellSized(r) && NoneActive(r) && WithinFrame(events)
    ensures var s := Happened(c, r, events);
            s.dest == TableAfter(r.dest, events) &&
            forall u :: 0 <= u < MAX_UNIVERSES ==> (s.active[u] <==> RoutedLast(c, r.dest, events, u))
  {
    if events == [] {
    } else {
      HappenedState(c, r, events[..|events| - 1]);
      assert !events[|events| - 1].FrameEnd?;
    }
  }

  lemma GotPushed(log: seq<Datagram>, from: nat, d: Datagram, ip: u32)
    requires from <= |log|
    ensures GotData(log + [d], from, ip) <==> GotData(log, from, ip) || d.ip == ip
  {
    var all := log + [d];
    assert all[|log|] == d;
    if GotData(log, from, ip) {
      var k :| from <= k < |log| && log[k].ip == ip;
      assert all[k].ip == ip;
    }
  }

  lemma {:induction false} HappenedData(c: Config, r: Router, events: seq<Event>, ip: u32)
    requires WellSized(r) && NoneActive(r) && WithinFrame(events)
    ensures |r.log| <= |Happened(c, r, events).log|
    ensures GotData(Happened(c, r, events).log, |r.log|, ip) <==> DataWent(c, r.dest, events, ip)
  {
    if events == [] {
    } else {
      var front, e := events[..|events| - 1], events[|events| - 1];
      HappenedState(c, r, front);
      HappenedData(c, r, front, ip);
      assert !e.FrameEnd?;
      var s := Happened(c, r, front);
      if e.Send? && e.u < MAX_UNIVERSES && Resolved(c, s.dest[e.u]) != 0 {
        GotPushed(s.log, |r.log|, DataFor(c, s, e.u as int, e.data), ip);
      }
    }
  }

  /** An address to synchronise: some universe last sent with a route leads there now. */
  predicate DueSync(c: Config, dest: seq<ArtNetDest>, events: seq<Event>, ip: u32)
    requires |dest| == MAX_UNIVERSES
  {
    ip != 0 &&
    exists u :: 0 <= u < MAX_UNIVERSES && RoutedLast(c, dest, events, u) && Resolved(c, TableAfter(dest, events)[u]) == ip
  }

  /** However routes and sends interleave in a frame: its ArtSyncs go to exactly the
      addresses that got data if and only if every address sent to is where some
      universe last sent with a route leads at the end, and the other way round. */
  lemma {:induction false} InterleavedSynchronisedIff(c: Config, r: Router, events: seq<Event>)
    requires WellSized(r) && NoneActive(r) && !c.syncBroadcast && WithinFrame(events)
    ensures var t := Happened(c, r, events);
            var ips := Targets(c, t.dest, t.active, MAX_UNIVERSES);
            FrameEnded(c, t).log == t.log + Syncs(c, ips) && NoRepeats(ips) &&
            ((forall ip: u32 :: ip in ips <==> GotData(t.log, |r.log|, ip))
             <==> forall ip: u32 :: DueSync(c, r.dest, events, ip) <==> DataWent(c, r.dest, events, ip))
  {
    var t := Happened(c, r, events);
    var ips := Targets(c, t.dest, t.active, MAX_UNIVERSES);
    TargetsExact(c, t.dest, t.active, MAX_UNIVERSES);
    HappenedState(c, r, events);
    forall ip: u32 ensures ip in ips <==> DueSync(c, r.dest, events, ip) {}
    forall ip: u32 ensures GotData(t.log, |r.log|, ip) <==> DataWent(c, r.dest, events, ip) {
      HappenedData(c, r, events, ip);
    }
  }

  /** A route changed between a send and the frame's end draws the ArtSync away from
      the address that got the data. */
  lemma RetargetedFrame()
    ensures var c := Config(0, 6454, false);
            var s := Run(c, [SetDest(0, ArtNetDest(1, 0)), Send(0, []), SetDest(0, ArtNetDest(2, 0))]);
            |s.log| == 1 && s.log[0].ip == 1 && FrameEnded(c, s).log == s.log + [SyncTo(c, 2)]
  {
    var c := Config(0, 6454, false);
    var e1, e2, e3 := SetDest(0, ArtNetDest(1, 0)), Send(0, []), SetDest(0, ArtNetDest(2, 0));
    RunPush(c, [], e1);
    RunPush(c, [e1], e2);
    RunPush(c, [e1, e2], e3);
    assert [] + [e1] == [e1] && [e1] + [e2] == [e1, e2] && [e1, e2] + [e3] == [e1, e2, e3];
    var r := Rerouted(Fresh(), 0, ArtNetDest(1, 0));
    var s := Sent(c, r, 0, []);
    assert s.log == [DataFor(c, r, 0, [])];
    var t := Rerouted(s, 0, ArtNetDest(2, 0));
    assert Run(c, [e1, e2, e3]) == t;
    OnlyFirst(c, t.dest, t.active, MAX_UNIVERSES);
    assert Syncs(c, [2]) == [SyncTo(c, 2)];
  }

  lemma RunPush(c: Config, events: seq<Event>, e: Event)
    ensures Run(c, events + [e]) == Next(c, Run(c, events), e)
  {
    assert (events + [e])[..|events|] == events;
  }

  lemma {:induction false} OnlyFirst(c: Config, dest: seq<ArtNetDest>, active: seq<bool>, n: nat)
    requires 1 <= n <= |dest| == |active| && active[0] && dest[0].ip != 0
    requires forall u :: 1 <= u < n ==> !active[u]
    ensures Targets(c, dest, active, n) == [dest[0].ip]
  {
    if n > 1 {
      OnlyFirst(c, dest, active, n - 1);
    } else {
      assert Targets(c, dest, active, 0) == [];
    }
  }
}
