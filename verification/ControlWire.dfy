/** What controllers put on the wire: an OSC message byte by byte and the event it
    becomes, and the System Real Time bytes of a MIDI clock. */
module ControlWire {
  import opened Bytes
  import opened ControlTypes
  import opened Osc
  import Midi = MidiFraming

  // ---- OSC ---------------------------------------------------------------

  /** Bytes are counted in fours; a string takes its NUL and up to three more. */
  function PaddedSize(n: nat): nat {
    4 * (n / 4 + 1)
  }

  predicate TextAt(p: seq<byte>, at: nat, s: seq<byte>) {
    at + PaddedSize(|s|) <= |p| &&
    (forall k :: 0 <= k < |s| ==> p[at + k] == s[k]) &&
    forall k :: at + |s| <= k < at + PaddedSize(|s|) ==> p[k] == 0
  }

  /** Big-endian. */
  predicate NumberAt(p: seq<byte>, at: nat, v: u32) {
    at + 4 <= |p| &&
    v as int == 16777216 * (p[at] as int) + 65536 * (p[at + 1] as int) + 256 * (p[at + 2] as int) + p[at + 3] as int
  }

  lemma PaddedBytes(s: seq<byte>)
    ensures |Padded(s)| == PaddedSize(|s|) && TextAt(Padded(s), 0, s)
  {
  }

  lemma BigEndian(v: u32)
    ensures NumberAt(Be32(v), 0, v)
  {
    FourDigits(v);
  }

  lemma PartsRead(a: seq<byte>, b: seq<byte>, c: seq<byte>)
    ensures var p := a + b + c;
            |p| == |a| + |b| + |c| && (forall k :: 0 <= k < |a| ==> p[k] == a[k]) &&
            (forall k :: 0 <= k < |b| ==> p[|a| + k] == b[k]) &&
            forall k :: 0 <= k < |c| ==> p[|a| + |b| + k] == c[k]
  {
  }

  /** The address, ",f" or ",i", then the argument's four bytes. */
  lemma MessageOnTheWire(m: Message)
    ensures var p, n := EncodeMessage(m), PaddedSize(|m.address|);
            |p| == n + 8 && TextAt(p, 0, m.address) &&
            TextAt(p, n, [',' as int, if m.arg.FloatArg? then 'f' as int else 'i' as int]) &&
            NumberAt(p, n + 4, if m.arg.FloatArg? then m.arg.bits else m.arg.raw)
  {
    PaddedBytes(m.address);
    PaddedBytes(Tag(m.arg));
    BigEndian(Raw(m.arg));
    PartsRead(Padded(m.address), Padded(Tag(m.arg)), Be32(Raw(m.arg)));
  }

  /** Binding `i` is the first for the address. */
  predicate FirstBound(bindings: seq<Binding>, address: seq<byte>, i: int) {
    0 <= i < |bindings| && bindings[i].address == address && forall j :: 0 <= j < i ==> bindings[j].address != address
  }

  lemma {:induction false} FirstIsFound(bindings: seq<Binding>, address: seq<byte>, i: int)
    requires FirstBound(bindings, address, i)
    ensures Lookup(bindings, address) == Some(bindings[i])
  {
    if i > 0 {
      assert bindings[0].address != address;
      FirstIsFound(bindings[1..], address, i - 1);
    }
  }

  /** The argument is a number other than zero: for a float, either sign of zero is. */
  predicate Presses(a: Arg) {
    if a.FloatArg? then a.bits != 0 && a.bits != 0x8000_0000 else a.raw != 0
  }

  /** A message's packet makes one event: a button's is pressed by any number but zero,
      any other control takes the number; without a binding there is none. */
  lemma {:induction false} MessageMakes(m: Message, bindings: seq<Binding>, i: int)
    requires IsRegular(m) && FirstBound(bindings, m.address, i)
    ensures var b := bindings[i];
            Walk(EncodeMessage(m), Handling(bindings), 0)
            == [if b.kind == Button then Event(Button, b.id, Presses(m.arg), FloatArg(0)) else Event(b.kind, b.id, false, m.arg)]
  {
    MessageReadsBack(m, bindings);
    WalkTree(Leaf(EncodeMessage(m)), Handling(bindings), 0);
    FirstIsFound(bindings, m.address, i);
  }

  /** The packet of "/cue/1" with the float 1.0. */
  lemma CueOne()
    ensures EncodeMessage(Message(['/' as int, 'c' as int, 'u' as int, 'e' as int, '/' as int, '1' as int], FloatArg(0x3F80_0000)))
            == [0x2F, 0x63, 0x75, 0x65, 0x2F, 0x31, 0, 0, 0x2C, 0x66, 0, 0, 0x3F, 0x80, 0, 0]
  {
    var address: seq<byte> := [0x2F, 0x63, 0x75, 0x65, 0x2F, 0x31];
    assert Padded(address) == address + [0, 0];
    assert Padded([0x2C, 0x66]) == [0x2C, 0x66, 0, 0];
  }

  /** A bundle opens with "#bundle" and a NUL, then the eight bytes of its time. */
  lemma BundleOpens(timetag: seq<byte>, elements: seq<Tree>, rest: seq<byte>)
    requires |timetag| == 8
    ensures var p := Encode(Bundle(timetag, elements, rest));
            |p| >= 16 && (forall k :: 0 <= k < 7 ==> p[k] as int == "#bundle"[k] as int) && p[7] == 0 && p[8..16] == timetag
  {
    var p := Encode(Bundle(timetag, elements, rest));
    assert p == MARKER + timetag + (EncodeAll(elements) + rest);
    assert forall k :: 0 <= k < 8 ==> p[k] == MARKER[k];
  }

  // ---- MIDI clock --------------------------------------------------------

  /** The clock byte beats on every twenty-fourth since the count was last at zero. */
  lemma ClockByte(r: Midi.Reader)
    requires Midi.Valid(r)
    ensures Midi.Fed(r, 0xF8)
            == if r.pulses == 23 then Midi.Step(r.(pulses := 0), Midi.BeatPulse)
               else Midi.Step(r.(pulses := r.pulses + 1), Midi.Nothing)
  {
  }

  /** Start, Continue and Stop are told apart and start the count again; the other
      real-time bytes do nothing. */
  lemma TransportBytes(r: Midi.Reader, b: byte)
    requires Midi.Valid(r) && 0xF9 <= b
    ensures var s := Midi.Fed(r, b);
            s.reader == (if b in {0xFA, 0xFB, 0xFC} then r.(pulses := 0) else r) &&
            (s.result == Midi.TransportStart <==> b == 0xFA) && (s.result == Midi.TransportContinue <==> b == 0xFB) &&
            (s.result == Midi.TransportStop <==> b == 0xFC) &&
            (b !in {0xFA, 0xFB, 0xFC} ==> s.result == Midi.Nothing)
  {
  }

  function Ticks(n: nat): (bytes: seq<byte>)
    ensures |bytes| == n
  {
    seq(n, _ => 0xF8)
  }

  lemma {:induction false} TicksCount(n: nat)
    requires n < 24
    ensures Midi.After(Midi.IDLE, Ticks(n)) == Midi.Reader([], n)
    ensures forall i :: 0 <= i < n ==> Midi.Results(Midi.IDLE, Ticks(n))[i] == Midi.Nothing
  {
    if n > 0 {
      TicksCount(n - 1);
      assert Ticks(n)[..n - 1] == Ticks(n - 1);
    }
  }

  /** A quarter note of clocks makes one beat, on the last of them. */
  lemma QuarterNote()
    ensures var results := Midi.Results(Midi.IDLE, Ticks(24));
            results[23] == Midi.BeatPulse && forall i :: 0 <= i < 23 ==> results[i] == Midi.Nothing
  {
    TicksCount(23);
    assert Ticks(24)[..23] == Ticks(23);
  }
}
