/** Art-Net as a node on the network sees it: the bytes of each packet, and where the
    router sends it. */
module ArtNetWire {
  import opened Bytes
  import opened Destinations
  import opened ArtNet

  // ---- packets -----------------------------------------------------------

  /** "Art-Net" and a NUL, the operation code low byte first, protocol version 14. */
  predicate OpensWith(p: seq<byte>, opcode: u16) {
    |p| >= 12 && (forall i :: 0 <= i < 7 ==> p[i] as int == "Art-Net"[i] as int) && p[7] == 0 &&
    p[8] as int + 256 * (p[9] as int) == opcode as int && 256 * (p[10] as int) + p[11] as int == 14
  }

  /** The first 512 bytes of the data. */
  function Carried(data: seq<byte>): seq<byte> {
    if |data| <= 512 then data else data[..512]
  }

  lemma HeaderOpens(wireUniverse: u16, sequence: byte, payload: nat)
    requires payload < 0x1_0000
    ensures OpensWith(Header(wireUniverse, sequence, payload), 0x5000)
  {
  }

  lemma OpensLonger(h: seq<byte>, rest: seq<byte>, opcode: u16)
    requires OpensWith(h, opcode)
    ensures OpensWith(h + rest, opcode)
  {
    assert forall i :: 0 <= i < |h| ==> (h + rest)[i] == h[i];
  }

  /** An ArtDmx packet: sequence, port 0, the 15-bit port address low byte first, the
      length high byte first and even, the data, and a zero where it was odd. */
  lemma DmxOnTheWire(wireUniverse: u16, sequence: byte, data: seq<byte>)
    ensures var p, d := DmxPacket(wireUniverse, sequence, data), Carried(data);
            OpensWith(p, 0x5000) && |p| == 18 + |d| + |d| % 2 && p[12] == sequence && p[13] == 0 &&
            p[14] as int + 256 * (p[15] as int) == wireUniverse as int % 32768 &&
            256 * (p[16] as int) + p[17] as int == |d| + |d| % 2 &&
            p[18..18 + |d|] == d && (|d| % 2 == 1 ==> p[18 + |d|] == 0)
  {
    var d := Clamped(data);
    var h := Header(wireUniverse, sequence, |d| + |d| % 2);
    var pad: seq<byte> := if |d| % 2 == 1 then [0] else [];
    DmxFields(wireUniverse, sequence, data);
    HeaderOpens(wireUniverse, sequence, |d| + |d| % 2);
    OpensLonger(h, d + pad, 0x5000);
    assert DmxPacket(wireUniverse, sequence, data) == h + (d + pad);
    assert h[13] == 0;
  }

  /** An ArtSync packet. */
  lemma SyncOnTheWire()
    ensures OpensWith(SYNC_PACKET, 0x5200) && |SYNC_PACKET| == 14 && SYNC_PACKET[12] == 0 && SYNC_PACKET[13] == 0
  {
  }

  // ---- routes ------------------------------------------------------------

  /** The universe's own address if it has one, else the fallback. */
  predicate GoesTo(c: Config, d: ArtNetDest, ip: u32) {
    ip != 0 && (if d.ip != 0 then ip == d.ip else ip == c.fallbackIp)
  }

  predicate Unroutable(c: Config, d: ArtNetDest) {
    d.ip == 0 && c.fallbackIp == 0
  }

  /** A universe's data goes out as one packet, to its address, under its wire universe
      and sequence number, and the universe counts as active; without a route nothing
      goes out, the drop is counted and the universe does not. Nothing else changes. */
  lemma SendOnTheWire(c: Config, r: Router, u: nat, data: seq<byte>)
    requires WellSized(r) && u < 8
    ensures var s, d := Sent(c, r, u, data), r.dest[u];
            s.dest == r.dest && WellSized(s) &&
            (forall v :: 0 <= v < 8 && v != u ==> s.sequence[v] == r.sequence[v] && s.active[v] == r.active[v]) &&
            (if Unroutable(c, d) then
               s.log == r.log && !s.active[u] && s.sequence[u] == r.sequence[u] &&
               s.drops == (if r.drops == 0xFFFF_FFFF then 0 else r.drops + 1)
             else
               s.active[u] && s.drops == r.drops &&
               s.sequence[u] == (if r.sequence[u] == 255 then 1 else r.sequence[u] + 1) &&
               |s.log| == |r.log| + 1 && s.log[..|r.log|] == r.log &&
               var sent := s.log[|r.log|];
               GoesTo(c, d, sent.ip) && sent.port == c.port &&
               sent.bytes == DmxPacket(d.wireUniverse, r.sequence[u], data))
  {
  }

  /** The synchronisation goes to 255.255.255.255 when configured to, otherwise once to
      each address of an active universe, and then no universe is active. */
  lemma FrameEndOnTheWire(c: Config, r: Router, i: nat)
    requires WellSized(r) && |r.log| <= i < |FrameEnded(c, r).log|
    ensures var sync := FrameEnded(c, r).log[i];
            sync.bytes == SYNC_PACKET && sync.port == c.port &&
            (if c.syncBroadcast then sync.ip == 0xFFFF_FFFF && i == |r.log|
             else exists u :: 0 <= u < 8 && r.active[u] && GoesTo(c, r.dest[u], sync.ip))
  {
    if !c.syncBroadcast {
      var ips := Targets(c, r.dest, r.active, MAX_UNIVERSES);
      TargetHasUniverse(c, r.dest, r.active, MAX_UNIVERSES, ips[i - |r.log|]);
    }
  }

  lemma {:induction false} TargetHasUniverse(c: Config, dest: seq<ArtNetDest>, active: seq<bool>, n: nat, ip: u32)
    requires n <= |dest| == |active| && ip in Targets(c, dest, active, n)
    ensures exists u :: 0 <= u < n && active[u] && GoesTo(c, dest[u], ip)
  {
    if ip in Targets(c, dest, active, n - 1) {
      TargetHasUniverse(c, dest, active, n - 1, ip);
    } else {
      assert active[n - 1] && GoesTo(c, dest[n - 1], ip);
    }
  }

  // ---- drops over every run ----------------------------------------------

  /** How many sends of a run had no route. */
  function Unrouted(c: Config, events: seq<Event>): nat {
    if events == [] then 0
    else
      var e, r := events[|events| - 1], Run(c, events[..|events| - 1]);
      Unrouted(c, events[..|events| - 1])
      + if e.Send? && e.u < 8 && Unroutable(c, r.dest[e.u]) then 1 else 0
  }

  /** Over every run the drop counter counts exactly those, in 32 bits. */
  lemma {:induction false} DropsCounted(c: Config, events: seq<Event>)
    ensures Run(c, events).drops as int == Unrouted(c, events) % 0x1_0000_0000
  {
    if events == [] {
    } else {
      DropsCounted(c, events[..|events| - 1]);
    }
  }

  /** A fresh router sends universe `u` under its own number, starting from 1. */
  lemma StartsWithOwnNumbers(u: nat)
    requires u < 8
    ensures Fresh().dest[u] == ArtNetDest(0, u) && Fresh().sequence[u] == 1 && !Fresh().active[u]
    ensures Fresh().log == [] && Fresh().drops == 0
  {
  }
}
