/** ArtNetRouter of artnet_router.cpp: packets written into a byte buffer, and the
    per-universe table updated in place, against the values of ArtNet. */
module ArtNetRouter {
  import opened Bytes
  import opened Destinations
  import opened ArtNet

  /** Writes `part` at `at`; the rest of the buffer stays. */
  method Write(out: array<byte>, at: nat, part: seq<byte>)
    requires at + |part| <= out.Length
    modifies out
    ensures out[at..at + |part|] == part
    ensures forall k :: 0 <= k < out.Length && !(at <= k < at + |part|) ==> out[k] == old(out[k])
  {
    for i := 0 to |part|
      invariant forall k :: 0 <= k < i ==> out[at + k] == part[k]
      invariant forall k :: 0 <= k < out.Length && !(at <= k < at + i) ==> out[k] == old(out[k])
    {
      out[at + i] := part[i];
    }
  }

  method WriteHeader(out: array<byte>, wireUniverse: u16, sequence: byte, payload: nat)
    requires out.Length >= 18 && payload < 0x1_0000
    modifies out
    ensures out[..18] == Header(wireUniverse, sequence, payload)
  {
    Write(out, 0, ID);
    assert forall k :: 0 <= k < 8 ==> out[k] == out[0..8][k];
    out[8], out[9], out[10], out[11] := 0x00, 0x50, 0, 14;
    out[12], out[13] := sequence, 0;
    out[14], out[15] := wireUniverse % 256, wireUniverse / 256 % 128;
    out[16], out[17] := payload / 256, payload % 256;
    ghost var h := Header(wireUniverse, sequence, payload);
    assert forall k :: 8 <= k < 18 ==> out[k] == h[k];
    assert forall k :: 0 <= k < 8 ==> out[k] == h[k];
  }

  /** Writes the data after the header, padded to `payload` bytes. */
  method WritePayload(out: array<byte>, d: seq<byte>, payload: nat)
    requires out.Length >= 18 + payload && |d| <= payload <= |d| + 1
    modifies out
    ensures out[..18] == old(out[..18])
    ensures out[18..18 + payload] == d + if payload > |d| then [0] else []
  {
    ghost var head := out[..18];
    Write(out, 18, d);
    assert forall k :: 0 <= k < 18 ==> out[k] == head[k];
    if payload > |d| { out[18 + |d|] := 0; }
    assert out[18..18 + |d|] == d;
    assert out[18..18 + payload] == out[18..18 + |d|] + out[18 + |d|..18 + payload];
  }

  method BuildArtDmxPacket(out: array<byte>, wireUniverse: u16, sequence: byte, data: seq<byte>) returns (n: nat)
    requires out.Length >= 18 + UNIVERSE_SIZE
    modifies out
    ensures n == |DmxPacket(wireUniverse, sequence, data)| && out[..n] == DmxPacket(wireUniverse, sequence, data)
  {
    var d := Clamped(data);
    var payload := |d|;
    if payload % 2 == 1 { payload := payload + 1; }
    WriteHeader(out, wireUniverse, sequence, payload);
    WritePayload(out, d, payload);
    n := 18 + payload;
    assert out[..n] == out[..18] + out[18..n];
  }

  class Routing {
    const config: Config
    const dest: array<ArtNetDest>
    const sequence: array<byte>
    const active: array<bool>
    var drops: u32
    var log: seq<Datagram>

    ghost predicate Valid()
      reads this
    {
      dest.Length == MAX_UNIVERSES && sequence.Length == MAX_UNIVERSES && active.Length == MAX_UNIVERSES
    }

    ghost function State(): (r: Router)
      requires Valid()
      reads this, dest, sequence, active
      ensures WellSized(r)
    {
      Router(dest[..], sequence[..], active[..], drops, log)
    }

    constructor (c: Config)
      ensures Valid() && config == c && State() == Fresh()
      ensures fresh(dest) && fresh(sequence) && fresh(active)
    {
      config := c;
      dest := new ArtNetDest[MAX_UNIVERSES](i requires 0 <= i < MAX_UNIVERSES => ArtNetDest(0, i));
      sequence := new byte[MAX_UNIVERSES](_ => 1);
      active := new bool[MAX_UNIVERSES](_ => false);
      drops, log := 0, [];
      new;
      assert State() == Fresh();
    }

    method SetDest(u: byte, d: ArtNetDest)
      requires Valid()
      modifies dest
      ensures Valid() && State() == Rerouted(old(State()), u, d)
    {
      if u >= MAX_UNIVERSES { return; }
      dest[u] := d;
    }

    function ResolveIp(d: ArtNetDest): (ip: u32)
      ensures ip == Resolved(config, d)
    {
      if d.ip != 0 then d.ip else config.fallbackIp
    }

    method Send(u: byte, data: seq<byte>)
      requires Valid()
      modifies this, sequence, active
      ensures Valid() && State() == Sent(config, old(State()), u, data)
    {
      if u >= MAX_UNIVERSES { return; }
      var d := dest[u];
      var ip := ResolveIp(d);
      if ip == 0 {
        drops := (drops + 1) % 0x1_0000_0000;
        active[u] := false;
        return;
      }
      var packet := new byte[18 + UNIVERSE_SIZE](_ => 0);
      var n := BuildArtDmxPacket(packet, d.wireUniverse, sequence[u], data);
      sequence[u] := (sequence[u] as int + 1) % 256;
      if sequence[u] == 0 { sequence[u] := 1; }
      active[u] := true;
      log := log + [Datagram(Universe(u as int), ip, config.port, packet[..n])];
    }

    /** The addresses one ArtSync each goes to. */
    method CollectTargets() returns (ips: seq<u32>)
      requires Valid()
      ensures ips == Targets(config, dest[..], active[..], MAX_UNIVERSES)
    {
      ips := [];
      for i := 0 to MAX_UNIVERSES
        invariant ips == Targets(config, dest[..], active[..], i)
      {
        if !active[i] { continue; }
        var ip := ResolveIp(dest[i]);
        if ip == 0 { continue; }
        var seen := false;
        for j := 0 to |ips|
          invariant seen <==> ip in ips[..j]
        {
          if ips[j] == ip { seen := true; }
        }
        assert ips[..|ips|] == ips;
        if !seen { ips := ips + [ip]; }
      }
    }

    method EndFrame()
      requires Valid()
      modifies this, active
      ensures Valid() && State() == FrameEnded(config, old(State()))
    {
      if config.syncBroadcast {
        log := log + [SyncTo(config, BROADCAST)];
        return;
      }
      var ips := CollectTargets();
      ghost var before := log;
      for i := 0 to active.Length
        invariant log == before && drops == old(drops)
        invariant forall k :: 0 <= k < i ==> !active[k]
      {
        active[i] := false;
      }
      for i := 0 to |ips|
        invariant log == before + Syncs(config, ips)[..i] && drops == old(drops)
        invariant forall k :: 0 <= k < active.Length ==> !active[k]
      {
        log := log + [Datagram(Sync, ips[i], config.port, SYNC_PACKET)];
      }
      assert Syncs(config, ips)[..|ips|] == Syncs(config, ips);
    }
  }
}
