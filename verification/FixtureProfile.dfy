/** Fixture profiles of fixture_profile.cpp and what applying them does to a DMX
    buffer. A profile maps capabilities to channels and may carve function
    ranges out of a channel. */
module FixtureProfile {
  import opened Bytes
  import opened Reals

  const MAX_CAPS: nat := 24
  const MAX_RANGES: nat := 192
  const MAX_RANGE_NAME_BLOB: nat := 2048
  const NO_FINE: byte := 255
  const UNNAMED: u16 := 0xFFFF

  datatype ChannelMap = ChannelMap(cap: byte, coarse: byte, fine: byte, defaultValue: byte, flags: byte)

  datatype FunctionRange = FunctionRange(
    capIndex: byte, dmxFrom: byte, dmxTo: byte, continuous: bool, nameOff: u16, semantic: byte)

  datatype Profile = Profile(
    footprint: byte, channels: seq<ChannelMap>, ranges: seq<FunctionRange>, nameBlob: seq<byte>)

  /** The checks parseProfile makes on channel and range records. */
  predicate ChannelOk(c: ChannelMap, footprint: byte) {
    c.coarse < footprint && (c.fine != NO_FINE ==> c.fine < footprint)
  }

  ghost predicate RangeOk(r: FunctionRange, channels: nat, nameBlob: seq<byte>) {
    r.capIndex < channels && r.dmxFrom <= r.dmxTo &&
    (r.nameOff != UNNAMED ==> r.nameOff < |nameBlob| && Terminated(nameBlob, r.nameOff))
  }

  ghost predicate Wellformed(p: Profile) {
    (forall i :: 0 <= i < |p.channels| ==> ChannelOk(p.channels[i], p.footprint)) &&
    (forall i :: 0 <= i < |p.ranges| ==> RangeOk(p.ranges[i], |p.channels|, p.nameBlob))
  }

  // ---- writes ------------------------------------------------------------

  /** One byte stored at an offset from the fixture's base. */
  datatype Write = Write(offset: byte, value: byte)

  function Scale8(norm01: real): byte {
    Round(Clamp01(norm01) * 255.0)
  }

  function Scale16(norm01: real): u16 {
    (Clamp01(norm01) * 65535.0).Floor
  }

  predicate Inverted(c: ChannelMap) {
    c.flags % 2 == 1
  }

  /** Index of the first channel carrying `cap`, or `|channels|`. */
  function ChannelIndex(channels: seq<ChannelMap>, cap: byte): (i: nat)
    ensures i <= |channels|
    ensures i < |channels| ==> channels[i].cap == cap
    ensures forall j :: 0 <= j < i ==> channels[j].cap != cap
  {
    if channels == [] || channels[0].cap == cap then 0
    else 1 + ChannelIndex(channels[1..], cap)
  }

  function CapWrites(p: Profile, cap: byte, norm01: real): seq<Write> {
    var i := ChannelIndex(p.channels, cap);
    if i == |p.channels| then []
    else
      var c := p.channels[i];
      if c.fine == NO_FINE then
        var v := Scale8(norm01);
        [Write(c.coarse, if Inverted(c) then 255 - v else v)]
      else
        var v := Scale16(norm01);
        var w := if Inverted(c) then 65535 - v else v;
        [Write(c.coarse, w / 256), Write(c.fine, w % 256)]
  }

  // ---- what a write shows ------------------------------------------------

  /** `x` within [0, 1]. */
  function Level(x: real): real {
    if x <= 0.0 then 0.0 else if x >= 1.0 then 1.0 else x
  }

  predicate WithinHalf(n: int, x: real) {
    -0.5 <= n as real - x <= 0.5
  }

  /** What a receiver makes of the bytes on a channel's coarse and fine offsets. An
      8-bit channel shows the level to the nearest of 255 steps, a 16-bit one to the
      step below of 65535, high byte first; an inverted one shows the rest. */
  predicate ShowsLevel(c: ChannelMap, high: byte, low: byte, norm01: real) {
    if c.fine == 255 then
      WithinHalf(high, if c.flags % 2 == 1 then 255.0 - 255.0 * Level(norm01) else 255.0 * Level(norm01))
    else
      var word := 256 * (high as int) + low as int;
      var steps := (65535.0 * Level(norm01)).Floor;
      word == if c.flags % 2 == 1 then 65535 - steps else steps
  }

  /** The bytes on a channel's offsets; they must differ for a 16-bit channel. */
  predicate Shown(buf: seq<byte>, base: nat, c: ChannelMap, norm01: real) {
    base + c.coarse < |buf| && (c.fine != 255 ==> base + c.fine < |buf|) &&
    (c.coarse != c.fine ==>
      ShowsLevel(c, buf[base + c.coarse], if c.fine == 255 then 0 else buf[base + c.fine], norm01))
  }

  predicate FirstWith(channels: seq<ChannelMap>, cap: byte, i: int) {
    0 <= i < |channels| && channels[i].cap == cap && forall j :: 0 <= j < i ==> channels[j].cap != cap
  }

  /** Nothing but a channel's own bytes differs. */
  predicate OnlyChannel(before: seq<byte>, after: seq<byte>, base: nat, c: ChannelMap) {
    |before| == |after| &&
    forall a :: 0 <= a < |after| && a != base + c.coarse && (c.fine == 255 || a != base + c.fine) ==>
      after[a] == before[a]
  }

  lemma FirstIsIndex(channels: seq<ChannelMap>, cap: byte, i: int)
    requires FirstWith(channels, cap, i)
    ensures ChannelIndex(channels, cap) == i
  {
  }

  lemma Shows8(c: ChannelMap, norm01: real)
    requires c.fine == NO_FINE
    ensures ShowsLevel(c, if Inverted(c) then 255 - Scale8(norm01) else Scale8(norm01), 0, norm01)
  {
    assert Clamp01(norm01) == Level(norm01);
  }

  lemma Shows16(c: ChannelMap, norm01: real, w: u16)
    requires c.fine != NO_FINE && w == if Inverted(c) then 65535 - Scale16(norm01) else Scale16(norm01)
    ensures ShowsLevel(c, w / 256, w % 256, norm01)
  {
    assert Clamp01(norm01) == Level(norm01);
    assert Clamp01(norm01) * 65535.0 == 65535.0 * Level(norm01);
    assert 256 * (w / 256) + w % 256 == w;
  }

  lemma TwoApplied(buf: seq<byte>, base: nat, x: Write, y: Write)
    requires base + x.offset < |buf| && base + y.offset < |buf|
    ensures Applied(buf, base, [x, y]) == buf[base + x.offset := x.value][base + y.offset := y.value]
  {
    assert [x, y] == [x] + [y];
    AppliedPush(buf, base, [x], y);
    OneApplied(buf, base, x);
  }

  lemma OneApplied(buf: seq<byte>, base: nat, x: Write)
    requires base + x.offset < |buf|
    ensures Applied(buf, base, [x]) == buf[base + x.offset := x.value]
  {
    assert [x] == [] + [x];
    AppliedPush(buf, base, [], x);
  }

  /** Applying a capability shows its level on the first channel that has it, and
      leaves every other byte; without such a channel nothing changes. */
  lemma CapabilityShown(p: Profile, cap: byte, norm01: real, buf: seq<byte>, base: nat)
    requires Wellformed(p) && base + p.footprint <= |buf|
    ensures forall i :: FirstWith(p.channels, cap, i) ==>
              Shown(Applied(buf, base, CapWrites(p, cap, norm01)), base, p.channels[i], norm01) &&
              OnlyChannel(buf, Applied(buf, base, CapWrites(p, cap, norm01)), base, p.channels[i])
    ensures (forall i :: !FirstWith(p.channels, cap, i)) ==> Applied(buf, base, CapWrites(p, cap, norm01)) == buf
  {
    var i := ChannelIndex(p.channels, cap);
    if i < |p.channels| {
      assert FirstWith(p.channels, cap, i);
      ChannelShown(p, cap, norm01, buf, base, i);
    }
  }

  lemma ChannelShown(p: Profile, cap: byte, norm01: real, buf: seq<byte>, base: nat, i: int)
    requires Wellformed(p) && base + p.footprint <= |buf| && FirstWith(p.channels, cap, i)
    ensures Shown(Applied(buf, base, CapWrites(p, cap, norm01)), base, p.channels[i], norm01)
    ensures OnlyChannel(buf, Applied(buf, base, CapWrites(p, cap, norm01)), base, p.channels[i])
  {
    FirstIsIndex(p.channels, cap, i);
    var c := p.channels[i];
    assert ChannelOk(c, p.footprint);
    if c.fine == NO_FINE {
      var v := Scale8(norm01);
      OneApplied(buf, base, Write(c.coarse, if Inverted(c) then 255 - v else v));
      Shows8(c, norm01);
    } else {
      var v := Scale16(norm01);
      var w := if Inverted(c) then 65535 - v else v;
      TwoApplied(buf, base, Write(c.coarse, w / 256), Write(c.fine, w % 256));
      Shows16(c, norm01, w);
    }
  }

  function DefaultWrites(channels: seq<ChannelMap>): seq<Write> {
    if channels == [] then []
    else
      var c := channels[|channels| - 1];
      DefaultWrites(channels[..|channels| - 1]) + [Write(c.coarse, c.defaultValue)]
      + if c.fine == NO_FINE then [] else [Write(c.fine, 0)]
  }

  /** The byte a selected range writes: scaled across a continuous range, the
      centre of a discrete one. */
  function RangeValue(r: FunctionRange, value01: real): (v: byte)
    requires r.dmxFrom <= r.dmxTo
    ensures r.dmxFrom <= v <= r.dmxTo
    ensures r.continuous ==>
              WithinHalf(v, r.dmxFrom as real + Level(value01) * (r.dmxTo as real - r.dmxFrom as real))
    ensures !r.continuous ==> v - r.dmxFrom <= r.dmxTo - v <= v - r.dmxFrom + 1
  {
    if r.continuous then
      ScaledNear(Clamp01(value01), r.dmxTo - r.dmxFrom);
      r.dmxFrom + ScaledRound(Clamp01(value01), r.dmxTo - r.dmxFrom)
    else (r.dmxFrom as int + r.dmxTo as int) / 2
  }

  predicate NamedSo(r: FunctionRange, nameBlob: seq<byte>, channel: nat, name: seq<byte>) {
    r.capIndex == channel && r.nameOff != UNNAMED &&
    r.nameOff <= |nameBlob| && CStringAt(nameBlob, r.nameOff) == name
  }

  /** Index of the first range of `channel` called `name`, or `|ranges|`. */
  function RangeNamed(ranges: seq<FunctionRange>, nameBlob: seq<byte>, channel: nat, name: seq<byte>): (i: nat)
    ensures i <= |ranges|
    ensures i < |ranges| ==> NamedSo(ranges[i], nameBlob, channel, name)
    ensures forall j :: 0 <= j < i ==> !NamedSo(ranges[j], nameBlob, channel, name)
  {
    if ranges == [] || NamedSo(ranges[0], nameBlob, channel, name) then 0
    else 1 + RangeNamed(ranges[1..], nameBlob, channel, name)
  }

  /** How many ranges of `channel` there are. */
  function CountOf(ranges: seq<FunctionRange>, channel: nat): nat {
    if ranges == [] then 0
    else CountOf(ranges[..|ranges| - 1], channel) + if ranges[|ranges| - 1].capIndex == channel then 1 else 0
  }

  /** Position `i` holds the `local`-th range of `channel`, counting from zero.
      The program counts in a byte. */
  predicate AtLocalIndex(ranges: seq<FunctionRange>, channel: nat, local: byte, i: nat) {
    i < |ranges| && ranges[i].capIndex == channel && CountOf(ranges[..i], channel) % 256 == local
  }

  function RangeAtLocal(ranges: seq<FunctionRange>, channel: nat, local: byte, i: nat): (r: nat)
    requires i <= |ranges|
    ensures i <= r <= |ranges|
    ensures r < |ranges| ==> AtLocalIndex(ranges, channel, local, r)
    ensures forall j :: i <= j < r ==> !AtLocalIndex(ranges, channel, local, j)
    decreases |ranges| - i
  {
    if i == |ranges| || AtLocalIndex(ranges, channel, local, i) then i
    else RangeAtLocal(ranges, channel, local, i + 1)
  }

  function NameWrites(p: Profile, cap: byte, name: seq<byte>, value01: real): seq<Write>
    requires Wellformed(p)
  {
    var ci := ChannelIndex(p.channels, cap);
    if ci == |p.channels| then []
    else
      var i := RangeNamed(p.ranges, p.nameBlob, ci, name);
      if i == |p.ranges| then []
      else
        assert RangeOk(p.ranges[i], |p.channels|, p.nameBlob);
        [Write(p.channels[ci].coarse, RangeValue(p.ranges[i], value01))]
  }

  function IndexWrites(p: Profile, cap: byte, local: byte, value01: real): seq<Write>
    requires Wellformed(p)
  {
    var ci := ChannelIndex(p.channels, cap);
    if ci == |p.channels| then []
    else
      var i := RangeAtLocal(p.ranges, ci, local, 0);
      if i == |p.ranges| then []
      else
        assert RangeOk(p.ranges[i], |p.channels|, p.nameBlob);
        [Write(p.channels[ci].coarse, RangeValue(p.ranges[i], value01))]
  }

  // ---- what a range write shows ------------------------------------------

  /** A continuous range shows the value between its ends to the nearest step, a
      discrete one its centre. */
  predicate ShowsRange(r: FunctionRange, b: byte, value01: real) {
    r.dmxFrom <= b <= r.dmxTo &&
    if r.continuous then WithinHalf(b, r.dmxFrom as real + Level(value01) * (r.dmxTo as real - r.dmxFrom as real))
    else r.dmxTo as int - b as int - 1 <= b as int - r.dmxFrom as int <= r.dmxTo as int - b as int
  }

  /** Channel `i` shows range `j` and nothing but its coarse byte changed. */
  ghost predicate RangeShown(p: Profile, i: int, j: int, value01: real, before: seq<byte>, after: seq<byte>, base: nat) {
    0 <= i < |p.channels| && 0 <= j < |p.ranges| && |after| == |before| && base + p.channels[i].coarse < |after| &&
    ShowsRange(p.ranges[j], after[base + p.channels[i].coarse], value01) &&
    forall a :: 0 <= a < |after| && a != base + p.channels[i].coarse ==> after[a] == before[a]
  }

  /** Range `j` is the first of channel `i` whose own name is `name`. */
  ghost predicate FirstNamed(p: Profile, i: int, name: seq<byte>, j: int) {
    0 <= i < |p.channels| && 0 <= j < |p.ranges| && HasName(p, i, j, name) &&
    forall k :: 0 <= k < j ==> !HasName(p, i, k, name)
  }

  predicate HasName(p: Profile, i: int, j: int, name: seq<byte>)
    requires 0 <= j < |p.ranges|
  {
    var r := p.ranges[j];
    r.capIndex as int == i && r.nameOff != 0xFFFF && r.nameOff <= |p.nameBlob| && CStringAt(p.nameBlob, r.nameOff) == name
  }

  /** The positions of channel `i`'s ranges, in order. */
  ghost predicate Listing(ps: seq<nat>, ranges: seq<FunctionRange>, i: int) {
    (forall x, y :: 0 <= x < y < |ps| ==> ps[x] < ps[y]) &&
    forall j :: j in ps <==> 0 <= j < |ranges| && ranges[j].capIndex as int == i
  }

  /** Selecting by name shows the first range so named on the first channel of the
      capability. */
  lemma NamedRangeShown(p: Profile, cap: byte, name: seq<byte>, value01: real, buf: seq<byte>, base: nat, i: int, j: int)
    requires Wellformed(p) && base + p.footprint <= |buf| && FirstWith(p.channels, cap, i) && FirstNamed(p, i, name, j)
    ensures RangeShown(p, i, j, value01, buf, Applied(buf, base, NameWrites(p, cap, name, value01)), base)
  {
    FirstIsIndex(p.channels, cap, i);
    assert ChannelOk(p.channels[i], p.footprint) && RangeOk(p.ranges[j], |p.channels|, p.nameBlob);
    assert forall k :: 0 <= k < |p.ranges| ==> (HasName(p, i, k, name) <==> NamedSo(p.ranges[k], p.nameBlob, i, name));
    assert RangeNamed(p.ranges, p.nameBlob, i, name) == j;
    OneApplied(buf, base, Write(p.channels[i].coarse, RangeValue(p.ranges[j], value01)));
  }

  /** Without such a range nothing is written. */
  lemma NoNamedRange(p: Profile, cap: byte, name: seq<byte>, value01: real)
    requires Wellformed(p)
    requires forall i, j :: FirstWith(p.channels, cap, i) ==> !FirstNamed(p, i, name, j)
    ensures NameWrites(p, cap, name, value01) == []
  {
    var i := ChannelIndex(p.channels, cap);
    if i < |p.channels| {
      assert FirstWith(p.channels, cap, i);
      var j := RangeNamed(p.ranges, p.nameBlob, i, name);
      assert j < |p.ranges| ==> FirstNamed(p, i, name, j);
    }
  }

  lemma {:induction false} CountListed(ranges: seq<FunctionRange>, i: nat, ps: seq<nat>, n: nat, k: nat)
    requires Listing(ps, ranges, i) && n <= |ranges| && k <= |ps|
    requires forall x :: 0 <= x < |ps| ==> (ps[x] < n <==> x < k)
    ensures CountOf(ranges[..n], i) == k
  {
    assert k > 0 ==> ps[0] < n;
    if n == 0 {
    } else {
      assert ranges[..n][..n - 1] == ranges[..n - 1];
      if ranges[n - 1].capIndex == i {
        assert n - 1 in ps;
        var x :| 0 <= x < |ps| && ps[x] == n - 1;
        assert ps[x] < n && x < k && ps[k - 1] < n;
        CountListed(ranges, i, ps, n - 1, k - 1);
      } else {
        assert n - 1 !in ps;
        CountListed(ranges, i, ps, n - 1, k);
      }
    }
  }

  /** `local` counts the channel's own ranges, up to the 256 a byte can count. */
  lemma LocalIsListed(ranges: seq<FunctionRange>, i: nat, local: byte, ps: seq<nat>)
    requires Listing(ps, ranges, i) && |ps| <= 256
    ensures RangeAtLocal(ranges, i, local, 0) == if local < |ps| then ps[local] else |ranges|
  {
    forall x | 0 <= x < |ps| ensures ps[x] < |ranges| && CountOf(ranges[..ps[x]], i) == x {
      assert ps[x] in ps;
      CountListed(ranges, i, ps, ps[x], x);
    }
    forall j | 0 <= j < |ranges| && AtLocalIndex(ranges, i, local, j) ensures local < |ps| && j == ps[local] {
      assert j in ps;
      var x :| 0 <= x < |ps| && ps[x] == j;
    }
    if local < |ps| {
      var at := ps[local];
      assert at in ps && at < |ranges| && CountOf(ranges[..at], i) == local as int;
      assert AtLocalIndex(ranges, i, local, at);
      var r := RangeAtLocal(ranges, i, local, 0);
      assert r <= at;
      assert r < |ranges| && AtLocalIndex(ranges, i, local, r);
    }
  }

  /** Selecting by position shows that range of the first channel of the capability. */
  lemma ListedRangeShown(p: Profile, cap: byte, local: byte, value01: real, buf: seq<byte>, base: nat, i: int, ps: seq<nat>)
    requires Wellformed(p) && base + p.footprint <= |buf| && FirstWith(p.channels, cap, i)
    requires Listing(ps, p.ranges, i) && |ps| <= 256
    ensures var after := Applied(buf, base, IndexWrites(p, cap, local, value01));
            if local < |ps| then RangeShown(p, i, ps[local], value01, buf, after, base) else after == buf
  {
    FirstIsIndex(p.channels, cap, i);
    LocalIsListed(p.ranges, i, local, ps);
    assert ChannelOk(p.channels[i], p.footprint);
    if local < |ps| {
      var j := ps[local];
      assert j in ps && RangeOk(p.ranges[j], |p.channels|, p.nameBlob);
      OneApplied(buf, base, Write(p.channels[i].coarse, RangeValue(p.ranges[j], value01)));
    }
  }

  /** All writes of a well-formed profile stay inside its footprint. */
  predicate Within(ws: seq<Write>, footprint: byte) {
    forall i :: 0 <= i < |ws| ==> ws[i].offset < footprint
  }

  lemma CapWithin(p: Profile, cap: byte, norm01: real)
    requires Wellformed(p)
    ensures Within(CapWrites(p, cap, norm01), p.footprint)
  {
    var i := ChannelIndex(p.channels, cap);
    if i < |p.channels| { assert ChannelOk(p.channels[i], p.footprint); }
  }

  lemma {:induction false} DefaultsWithin(channels: seq<ChannelMap>, footprint: byte)
    requires forall i :: 0 <= i < |channels| ==> ChannelOk(channels[i], footprint)
    ensures Within(DefaultWrites(channels), footprint)
  {
    if channels == [] {
    } else {
      DefaultsWithin(channels[..|channels| - 1], footprint);
      assert ChannelOk(channels[|channels| - 1], footprint);
    }
  }

  lemma RangesWithin(p: Profile, cap: byte, name: seq<byte>, local: byte, value01: real)
    requires Wellformed(p)
    ensures Within(NameWrites(p, cap, name, value01), p.footprint)
    ensures Within(IndexWrites(p, cap, local, value01), p.footprint)
  {
    var ci := ChannelIndex(p.channels, cap);
    if ci < |p.channels| { assert ChannelOk(p.channels[ci], p.footprint); }
  }

  // ---- buffers -----------------------------------------------------------

  /** A buffer after a list of writes at `base`. */
  function Applied(buf: seq<byte>, base: nat, ws: seq<Write>): (r: seq<byte>)
    ensures |r| == |buf|
  {
    if ws == [] then buf
    else
      var b := Applied(buf, base, ws[..|ws| - 1]);
      var w := ws[|ws| - 1];
      if base + w.offset < |b| then b[base + w.offset := w.value] else b
  }

  lemma AppliedPush(buf: seq<byte>, base: nat, ws: seq<Write>, w: Write)
    requires base + w.offset < |buf|
    ensures Applied(buf, base, ws + [w]) == Applied(buf, base, ws)[base + w.offset := w.value]
  {
    assert (ws + [w])[..|ws|] == ws;
  }

  method Store(buf: array<byte>, base: nat, w: Write, ghost before: seq<byte>, ghost ws: seq<Write>)
    requires base + w.offset < buf.Length
    requires |before| == buf.Length && buf[..] == Applied(before, base, ws)
    modifies buf
    ensures buf[..] == Applied(before, base, ws + [w])
  {
    AppliedPush(before, base, ws, w);
    buf[base + w.offset] := w.value;
  }

  /** The caller leaves room for the footprint. */
  ghost predicate Fits(p: Profile, buf: array<byte>, base: nat) {
    Wellformed(p) && base + p.footprint <= buf.Length
  }

  method FindCapability(p: Profile, cap: byte) returns (i: nat)
    ensures i == ChannelIndex(p.channels, cap)
  {
    i := 0;
    while i < |p.channels|
      invariant i <= |p.channels|
      invariant forall j :: 0 <= j < i ==> p.channels[j].cap != cap
    {
      if p.channels[i].cap == cap { break; }
      i := i + 1;
    }
  }

  method ApplyCapability(p: Profile, cap: byte, norm01: real, buf: array<byte>, base: nat)
    requires Fits(p, buf, base)
    modifies buf
    ensures buf[..] == Applied(old(buf[..]), base, CapWrites(p, cap, norm01))
    ensures forall i :: FirstWith(p.channels, cap, i) ==>
              Shown(buf[..], base, p.channels[i], norm01) && OnlyChannel(old(buf[..]), buf[..], base, p.channels[i])
    ensures (forall i :: !FirstWith(p.channels, cap, i)) ==> buf[..] == old(buf[..])
  {
    CapabilityShown(p, cap, norm01, buf[..], base);
    StoreCapability(p, cap, norm01, buf, base);
  }

  method StoreCapability(p: Profile, cap: byte, norm01: real, buf: array<byte>, base: nat)
    requires Fits(p, buf, base)
    modifies buf
    ensures buf[..] == Applied(old(buf[..]), base, CapWrites(p, cap, norm01))
  {
    ghost var before := buf[..];
    var i := FindCapability(p, cap);
    if i == |p.channels| { return; }
    var c := p.channels[i];
    assert ChannelOk(c, p.footprint);
    if c.fine == NO_FINE {
      var v8 := Scale8(norm01);
      if Inverted(c) { v8 := 255 - v8; }
      Store(buf, base, Write(c.coarse, v8), before, []);
      assert [] + [Write(c.coarse, v8)] == CapWrites(p, cap, norm01);
    } else {
      var v16 := Scale16(norm01);
      if Inverted(c) { v16 := 65535 - v16; }
      Store(buf, base, Write(c.coarse, v16 / 256), before, []);
      Store(buf, base, Write(c.fine, v16 % 256), before, [] + [Write(c.coarse, v16 / 256)]);
      assert [] + [Write(c.coarse, v16 / 256)] + [Write(c.fine, v16 % 256)] == CapWrites(p, cap, norm01);
    }
  }

  method ApplyDefaults(p: Profile, buf: array<byte>, base: nat)
    requires Fits(p, buf, base)
    modifies buf
    ensures buf[..] == Applied(old(buf[..]), base, DefaultWrites(p.channels))
  {
    ghost var before := buf[..];
    for i := 0 to |p.channels|
      invariant buf[..] == Applied(before, base, DefaultWrites(p.channels[..i]))
    {
      var c := p.channels[i];
      assert ChannelOk(c, p.footprint);
      assert p.channels[..i + 1][..i] == p.channels[..i];
      ghost var ws := DefaultWrites(p.channels[..i]);
      Store(buf, base, Write(c.coarse, c.defaultValue), before, ws);
      if c.fine != NO_FINE {
        Store(buf, base, Write(c.fine, 0), before, ws + [Write(c.coarse, c.defaultValue)]);
      } else {
        assert ws + [Write(c.coarse, c.defaultValue)] + [] == ws + [Write(c.coarse, c.defaultValue)];
      }
    }
    assert p.channels[..|p.channels|] == p.channels;
  }

  method ApplyRangeByName(p: Profile, cap: byte, name: seq<byte>, value01: real, buf: array<byte>, base: nat)
      returns (found: bool)
    requires Fits(p, buf, base)
    modifies buf
    ensures found <==> NameWrites(p, cap, name, value01) != []
    ensures buf[..] == Applied(old(buf[..]), base, NameWrites(p, cap, name, value01))
  {
    ghost var before := buf[..];
    var ci := FindCapability(p, cap);
    if ci == |p.channels| { return false; }
    assert ChannelOk(p.channels[ci], p.footprint);
    for i := 0 to |p.ranges|
      invariant forall j :: 0 <= j < i ==> !NamedSo(p.ranges[j], p.nameBlob, ci, name)
      invariant buf[..] == before
    {
      var r := p.ranges[i];
      assert RangeOk(r, |p.channels|, p.nameBlob);
      if r.capIndex != ci || r.nameOff == UNNAMED { continue; }
      if CStringAt(p.nameBlob, r.nameOff) == name {
        var w := Write(p.channels[ci].coarse, RangeValue(r, value01));
        assert RangeNamed(p.ranges, p.nameBlob, ci, name) == i;
        Store(buf, base, w, before, []);
        assert [] + [w] == NameWrites(p, cap, name, value01);
        return true;
      }
    }
    return false;
  }

  method ApplyRangeByIndex(p: Profile, cap: byte, local: byte, value01: real, buf: array<byte>, base: nat)
      returns (found: bool)
    requires Fits(p, buf, base)
    modifies buf
    ensures found <==> IndexWrites(p, cap, local, value01) != []
    ensures buf[..] == Applied(old(buf[..]), base, IndexWrites(p, cap, local, value01))
  {
    ghost var before := buf[..];
    var ci := FindCapability(p, cap);
    if ci == |p.channels| { return false; }
    assert ChannelOk(p.channels[ci], p.footprint);
    var i := FindLocalRange(p, ci, local);
    if i == |p.ranges| { return false; }
    assert RangeOk(p.ranges[i], |p.channels|, p.nameBlob);
    var w := Write(p.channels[ci].coarse, RangeValue(p.ranges[i], value01));
    Store(buf, base, w, before, []);
    assert [] + [w] == IndexWrites(p, cap, local, value01);
    return true;
  }

  method FindLocalRange(p: Profile, ci: nat, local: byte) returns (i: nat)
    ensures i == RangeAtLocal(p.ranges, ci, local, 0)
  {
    var seen: byte := 0;
    i := 0;
    while i < |p.ranges|
      invariant i <= |p.ranges| && seen == CountOf(p.ranges[..i], ci) % 256
      invariant RangeAtLocal(p.ranges, ci, local, 0) == RangeAtLocal(p.ranges, ci, local, i)
    {
      assert p.ranges[..i + 1][..i] == p.ranges[..i];
      if p.ranges[i].capIndex == ci {
        if seen == local { return; }
        seen := (seen + 1) % 256;
      }
      i := i + 1;
    }
  }
}
