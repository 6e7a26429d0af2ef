/** The byte framing of midi_realtime.cpp: System Real Time bytes of MIDI 1.0 inside
    and between channel messages. */
module MidiFraming {
  import opened Bytes

  const PULSES_PER_QUARTER: nat := 24

  const CLOCK: byte := 0xF8
  const START: byte := 0xFA
  const CONTINUE: byte := 0xFB
  const STOP: byte := 0xFC

  datatype Result =
    | Nothing
    | ChannelMessage(message: seq<byte>)
    | BeatPulse
    | TransportStart
    | TransportStop
    | TransportContinue

  /** The bytes of the message in flight and the clocks since the last beat. */
  datatype Reader = Reader(partial: seq<byte>, pulses: nat)

  const IDLE: Reader := Reader([], 0)

  predicate Valid(r: Reader) {
    |r.partial| < 3 && r.pulses < PULSES_PER_QUARTER
  }

  predicate IsRealtime(b: byte) {
    b >= 0xF8
  }

  predicate IsTransport(b: byte) {
    b == START || b == CONTINUE || b == STOP
  }

  datatype Step = Step(reader: Reader, result: Result)

  function Realtime(r: Reader, b: byte): (s: Step)
    requires Valid(r) && IsRealtime(b)
    ensures Valid(s.reader) && s.reader.partial == r.partial && !s.result.ChannelMessage?
  {
    if b == CLOCK then
      if r.pulses + 1 >= PULSES_PER_QUARTER then Step(r.(pulses := 0), BeatPulse)
      else Step(r.(pulses := r.pulses + 1), Nothing)
    else if b == START then Step(r.(pulses := 0), TransportStart)
    else if b == STOP then Step(r.(pulses := 0), TransportStop)
    else if b == CONTINUE then Step(r.(pulses := 0), TransportContinue)
    else Step(r, Nothing)
  }

  function Fed(r: Reader, b: byte): (s: Step)
    requires Valid(r)
    ensures Valid(s.reader)
  {
    if IsRealtime(b) then Realtime(r, b)
    else
      var partial := (if b >= 0x80 then [] else r.partial) + [b];
      if |partial| >= 3 then Step(r.(partial := []), ChannelMessage(partial)) else Step(r.(partial := partial), Nothing)
  }

  // ---- streams -----------------------------------------------------------

  function After(r: Reader, bytes: seq<byte>): (s: Reader)
    requires Valid(r)
    ensures Valid(s)
  {
    if bytes == [] then r else Fed(After(r, bytes[..|bytes| - 1]), bytes[|bytes| - 1]).reader
  }

  /** The result of each byte. */
  function Results(r: Reader, bytes: seq<byte>): (rs: seq<Result>)
    requires Valid(r)
    ensures |rs| == |bytes|
  {
    if bytes == [] then [] else
      var front := bytes[..|bytes| - 1];
      Results(r, front) + [Fed(After(r, front), bytes[|bytes| - 1]).result]
  }

  /** The channel messages among them, in order. */
  function Messages(rs: seq<Result>): seq<seq<byte>> {
    if rs == [] then [] else
      var last := rs[|rs| - 1];
      if last.ChannelMessage? then Messages(rs[..|rs| - 1]) + [last.message] else Messages(rs[..|rs| - 1])
  }

  function WithoutRealtime(bytes: seq<byte>): seq<byte> {
    if bytes == [] then [] else
      var last := bytes[|bytes| - 1];
      if IsRealtime(last) then WithoutRealtime(bytes[..|bytes| - 1]) else WithoutRealtime(bytes[..|bytes| - 1]) + [last]
  }

  lemma ResultsPush(r: Reader, bytes: seq<byte>, b: byte)
    requires Valid(r)
    ensures After(r, bytes + [b]) == Fed(After(r, bytes), b).reader
    ensures Results(r, bytes + [b]) == Results(r, bytes) + [Fed(After(r, bytes), b).result]
  {
    assert (bytes + [b])[..|bytes|] == bytes;
  }

  lemma MessagesPush(rs: seq<Result>, last: Result)
    ensures Messages(rs + [last]) == if last.ChannelMessage? then Messages(rs) + [last.message] else Messages(rs)
  {
    assert (rs + [last])[..|rs|] == rs;
  }

  /** For every byte stream and from every state, deleting the System Real Time bytes
      leaves the channel messages, and the message in flight, unchanged. */
  lemma {:induction false} RealtimeTransparent(r: Reader, bytes: seq<byte>)
    requires Valid(r)
    ensures Messages(Results(r, bytes)) == Messages(Results(r, WithoutRealtime(bytes)))
    ensures After(r, bytes).partial == After(r, WithoutRealtime(bytes)).partial
  {
    if bytes == [] {
    } else {
      var front, last := bytes[..|bytes| - 1], bytes[|bytes| - 1];
      RealtimeTransparent(r, front);
      var kept := WithoutRealtime(front);
      MessagesPush(Results(r, front), Fed(After(r, front), last).result);
      if !IsRealtime(last) {
        ResultsPush(r, kept, last);
        MessagesPush(Results(r, kept), Fed(After(r, kept), last).result);
      }
    }
  }

  // ---- streams of whole messages -----------------------------------------

  lemma {:induction false} AfterConcat(r: Reader, a: seq<byte>, b: seq<byte>)
    requires Valid(r)
    ensures After(r, a + b) == After(After(r, a), b)
  {
    if b == [] {
      assert a + b == a;
    } else {
      var front, last := b[..|b| - 1], b[|b| - 1];
      AfterConcat(r, a, front);
      assert a + b == (a + front) + [last];
      ResultsPush(r, a + front, last);
    }
  }

  lemma {:induction false} ResultsConcat(r: Reader, a: seq<byte>, b: seq<byte>)
    requires Valid(r)
    ensures After(r, a + b) == After(After(r, a), b)
    ensures Results(r, a + b) == Results(r, a) + Results(After(r, a), b)
  {
    AfterConcat(r, a, b);
    if b == [] {
      assert a + b == a;
    } else {
      var front, last := b[..|b| - 1], b[|b| - 1];
      ResultsConcat(r, a, front);
      assert a + b == (a + front) + [last];
      ResultsPush(r, a + front, last);
      var result := Fed(After(r, a + front), last).result;
      assert Results(r, a + b) == (Results(r, a) + Results(After(r, a), front)) + [result];
    }
  }

  lemma {:induction false} MessagesConcat(a: seq<Result>, b: seq<Result>)
    ensures Messages(a + b) == Messages(a) + Messages(b)
  {
    if b == [] {
      assert a + b == a;
    } else {
      var front, last := b[..|b| - 1], b[|b| - 1];
      MessagesConcat(a, front);
      assert a + b == (a + front) + [last] && b == front + [last];
      MessagesPush(a + front, last);
      MessagesPush(front, last);
    }
  }

  lemma OneByte(r: Reader, b: byte)
    requires Valid(r)
    ensures After(r, [b]) == Fed(r, b).reader && Results(r, [b]) == [Fed(r, b).result]
  {
    ResultsPush(r, [], b);
    assert [] + [b] == [b];
  }

  lemma OneResult(result: Result)
    ensures Messages([result]) == if result.ChannelMessage? then [result.message] else []
  {
    MessagesPush([], result);
    assert [] + [result] == [result];
  }

  /** A first status byte or data byte is taken up. */
  lemma ByteTaken(r: Reader, b: byte)
    requires Valid(r) && b < 0xF8 && (b < 0x80 ==> |r.partial| < 2)
    ensures After(r, [b]).partial == (if b >= 0x80 then [] else r.partial) + [b] && Messages(Results(r, [b])) == []
  {
    OneByte(r, b);
    OneResult(Nothing);
  }

  /** A status byte below 0xF8 and the data bytes up to the next one. */
  predicate IsRun(run: seq<byte>) {
    run != [] && 0x80 <= run[0] < 0xF8 && forall i :: 1 <= i < |run| ==> run[i] < 0x80
  }

  /** A byte string cut into threes; what is left over is dropped. */
  function Triples(s: seq<byte>): (ms: seq<seq<byte>>)
    ensures |ms| == |s| / 3
  {
    seq(|s| / 3, k requires 0 <= k < |s| / 3 => s[3 * k..3 * k + 3])
  }

  function Leftover(s: seq<byte>): seq<byte> {
    s[|s| / 3 * 3..]
  }

  lemma TriplesPush(s: seq<byte>, b: byte)
    ensures Triples(s + [b]) == if |s| % 3 == 2 then Triples(s) + [Leftover(s) + [b]] else Triples(s)
    ensures Leftover(s + [b]) == if |s| % 3 == 2 then [] else Leftover(s) + [b]
  {
    var n := |s| / 3;
    forall k | 0 <= k < n ensures (s + [b])[3 * k..3 * k + 3] == s[3 * k..3 * k + 3] {}
    if |s| % 3 == 2 {
      assert |s| + 1 == 3 * (n + 1);
      assert (s + [b])[3 * n..3 * n + 3] == Leftover(s) + [b];
    } else {
      assert (|s| + 1) / 3 == n;
    }
  }

  lemma {:induction false} ByteTurns(r: Reader, b: byte)
    requires Valid(r) && b < 0x80
    ensures After(r, [b]).partial == if |r.partial| == 2 then [] else r.partial + [b]
    ensures Messages(Results(r, [b])) == if |r.partial| == 2 then [r.partial + [b]] else []
  {
    OneByte(r, b);
    OneResult(Fed(r, b).result);
  }

  /** From any state a run comes out in threes, whatever its status byte means. */
  lemma {:induction false} RunDelivered(r: Reader, run: seq<byte>)
    requires Valid(r) && IsRun(run)
    ensures Messages(Results(r, run)) == Triples(run) && After(r, run).partial == Leftover(run)
  {
    var front, b := run[..|run| - 1], run[|run| - 1];
    assert run == front + [b];
    if front == [] {
      ByteTaken(r, b);
    } else {
      RunDelivered(r, front);
      DataAppended(r, front, b);
    }
  }

  lemma {:induction false} DataAppended(r: Reader, front: seq<byte>, b: byte)
    requires Valid(r) && b < 0x80
    requires Messages(Results(r, front)) == Triples(front) && After(r, front).partial == Leftover(front)
    ensures Messages(Results(r, front + [b])) == Triples(front + [b])
    ensures After(r, front + [b]).partial == Leftover(front + [b])
  {
    var s := After(r, front);
    ByteTurns(s, b);
    TriplesPush(front, b);
    ResultsConcat(r, front, [b]);
    MessagesConcat(Results(r, front), Results(s, [b]));
  }

  function AllTriples(runs: seq<seq<byte>>): seq<seq<byte>> {
    if runs == [] then [] else AllTriples(runs[..|runs| - 1]) + Triples(runs[|runs| - 1])
  }

  lemma {:induction false} RunsDelivered(r: Reader, runs: seq<seq<byte>>)
    requires Valid(r) && forall i :: 0 <= i < |runs| ==> IsRun(runs[i])
    ensures Messages(Results(r, Flat(runs))) == AllTriples(runs)
  {
    if runs == [] {
    } else {
      var front, last := runs[..|runs| - 1], runs[|runs| - 1];
      RunsDelivered(r, front);
      ResultsConcat(r, Flat(front), last);
      RunDelivered(After(r, Flat(front)), last);
      MessagesConcat(Results(r, Flat(front)), Results(After(r, Flat(front)), last));
    }
  }

  /** What comes out of any stream, with System Real Time bytes anywhere in it and
      from any state: the bytes from each status byte to the next, cut into threes. */
  lemma {:induction false} StreamDelivered(r: Reader, bytes: seq<byte>, runs: seq<seq<byte>>)
    requires Valid(r) && WithoutRealtime(bytes) == Flat(runs)
    requires forall i :: 0 <= i < |runs| ==> IsRun(runs[i])
    ensures Messages(Results(r, bytes)) == AllTriples(runs)
  {
    RealtimeTransparent(r, bytes);
    RunsDelivered(r, runs);
  }

  // ---- running status ----------------------------------------------------

  /** A status byte below 0xF8 and up to two data bytes. */
  predicate IsMessage(m: seq<byte>) {
    IsRun(m) && |m| <= 3
  }

  /** A message as it is sent; under running status its status byte is left out. */
  datatype Sent = Sent(message: seq<byte>, omitted: bool)

  predicate Sendable(ss: seq<Sent>) {
    forall i :: 0 <= i < |ss| ==> IsMessage(ss[i].message)
  }

  function Meant(ss: seq<Sent>): (ms: seq<seq<byte>>)
    ensures |ms| == |ss|
  {
    seq(|ss|, i requires 0 <= i < |ss| => ss[i].message)
  }

  function OnWire(s: Sent): seq<byte> {
    if s.omitted && s.message != [] then s.message[1..] else s.message
  }

  function Wire(ss: seq<Sent>): seq<byte> {
    if ss == [] then [] else Wire(ss[..|ss| - 1]) + OnWire(ss[|ss| - 1])
  }

  /** Three bytes on the wire, the first of them the status. */
  predicate Full(s: Sent) {
    |s.message| == 3 && !s.omitted
  }

  predicate AllFull(ss: seq<Sent>) {
    forall i :: 0 <= i < |ss| ==> Full(ss[i])
  }

  /** Every message delivered uses up three bytes. */
  lemma {:induction false} Budget(r: Reader, bytes: seq<byte>)
    requires Valid(r)
    ensures 3 * |Messages(Results(r, bytes))| + |After(r, bytes).partial| <= |r.partial| + |bytes|
  {
    if bytes == [] {
    } else {
      var front, b := bytes[..|bytes| - 1], bytes[|bytes| - 1];
      Budget(r, front);
      assert bytes == front + [b];
      ResultsPush(r, front, b);
      MessagesPush(Results(r, front), Fed(After(r, front), b).result);
    }
  }

  lemma {:induction false} WireLength(ss: seq<Sent>)
    requires Sendable(ss)
    ensures |Wire(ss)| <= 3 * |ss| && (|Wire(ss)| == 3 * |ss| ==> AllFull(ss))
  {
    if ss == [] {
    } else {
      var front, last := ss[..|ss| - 1], ss[|ss| - 1];
      assert IsMessage(last.message);
      WireLength(front);
      if |Wire(ss)| == 3 * |ss| {
        assert |Wire(front)| == 3 * |front| && Full(last);
        assert forall i :: 0 <= i < |front| ==> ss[i] == front[i];
      }
    }
  }

  lemma {:induction false} FullOnWire(ss: seq<Sent>)
    requires Sendable(ss) && AllFull(ss)
    ensures Wire(ss) == Flat(Meant(ss)) && AllTriples(Meant(ss)) == Meant(ss)
  {
    if ss == [] {
    } else {
      var n := |ss| - 1;
      FullOnWire(ss[..n]);
      assert Full(ss[n]) && Meant(ss)[..n] == Meant(ss[..n]);
      OneTriple(ss[n].message);
      assert Meant(ss) == Meant(ss)[..n] + [ss[n].message];
    }
  }

  lemma {:induction false} OneTriple(m: seq<byte>)
    requires |m| == 3
    ensures Triples(m) == [m]
  {
    assert m[0..3] == m;
  }

  lemma {:induction false} FullDelivered(r: Reader, ss: seq<Sent>)
    requires Valid(r) && Sendable(ss) && AllFull(ss)
    ensures Messages(Results(r, Wire(ss))) == Meant(ss)
  {
    FullOnWire(ss);
    RunsDelivered(r, Meant(ss));
  }

  lemma {:induction false} DeliveredFull(r: Reader, ss: seq<Sent>)
    requires Valid(r) && r.partial == [] && Sendable(ss) && Messages(Results(r, Wire(ss))) == Meant(ss)
    ensures AllFull(ss)
  {
    WireLength(ss);
    Budget(r, Wire(ss));
  }

  /** The framing keeps no running status and knows no shorter messages: what is
      delivered is what was sent if and only if every message has three bytes and
      none leaves out its status byte. */
  lemma {:induction false} RunningStatusIff(r: Reader, bytes: seq<byte>, ss: seq<Sent>)
    requires Valid(r) && r.partial == [] && Sendable(ss) && WithoutRealtime(bytes) == Wire(ss)
    ensures Messages(Results(r, bytes)) == Meant(ss) <==> AllFull(ss)
  {
    RealtimeTransparent(r, bytes);
    if AllFull(ss) { FullDelivered(r, ss); }
    if Messages(Results(r, Wire(ss))) == Meant(ss) { DeliveredFull(r, ss); }
  }

  /** From any state a status byte below 0xF8 and two data bytes, with System Real
      Time bytes anywhere among them, yield exactly that message. */
  lemma {:induction false} MessageDelivered(r: Reader, bytes: seq<byte>, status: byte, data1: byte, data2: byte)
    requires Valid(r) && 0x80 <= status < 0xF8 && data1 < 0x80 && data2 < 0x80
    requires WithoutRealtime(bytes) == [status, data1, data2]
    ensures Messages(Results(r, bytes)) == [[status, data1, data2]] && After(r, bytes).partial == []
  {
    RealtimeTransparent(r, bytes);
    RunDelivered(r, [status, data1, data2]);
    OneTriple([status, data1, data2]);
  }

  /** After a complete message, the two data bytes of the next one under running
      status make no message; with a third data byte they come out as one that has
      no status byte at all. */
  lemma {:induction false} NoRunningStatus(r: Reader, data1: byte, data2: byte, data3: byte)
    requires Valid(r) && r.partial == [] && data1 < 0x80 && data2 < 0x80 && data3 < 0x80
    ensures Messages(Results(r, [data1, data2])) == [] && After(r, [data1, data2]).partial == [data1, data2]
    ensures Messages(Results(r, [data1, data2, data3])) == [[data1, data2, data3]]
  {
    var s := After(r, [data1]);
    ByteTurns(r, data1);
    ByteTurns(s, data2);
    assert [data1, data2] == [data1] + [data2];
    ResultsConcat(r, [data1], [data2]);
    MessagesConcat(Results(r, [data1]), Results(s, [data2]));
    LastByte(r, data1, data2, data3);
  }

  lemma {:induction false} LastByte(r: Reader, data1: byte, data2: byte, data3: byte)
    requires Valid(r) && data3 < 0x80 && After(r, [data1, data2]).partial == [data1, data2]
    requires Messages(Results(r, [data1, data2])) == []
    ensures Messages(Results(r, [data1, data2, data3])) == [[data1, data2, data3]]
  {
    var s := After(r, [data1, data2]);
    ByteTurns(s, data3);
    assert [data1, data2, data3] == [data1, data2] + [data3];
    ResultsConcat(r, [data1, data2], [data3]);
    MessagesConcat(Results(r, [data1, data2]), Results(s, [data3]));
  }

  /** Program Change 5 and then 6 under running status: out comes one message of
      three bytes, which its receiver takes for Program Change 5. */
  lemma {:induction false} ProgramChangesMerged()
    ensures Wire([Sent([0xC0, 5], false), Sent([0xC0, 6], true)]) == [0xC0, 5, 6]
    ensures Messages(Results(IDLE, [0xC0, 5, 6])) == [[0xC0, 5, 6]]
  {
    var ss := [Sent([0xC0, 5], false), Sent([0xC0, 6], true)];
    assert ss[..1] == [Sent([0xC0, 5], false)] && ss[..1][..0] == [];
    RunDelivered(IDLE, [0xC0, 5, 6]);
    OneTriple([0xC0, 5, 6]);
  }

  // ---- beats -------------------------------------------------------------

  /** Clocks since the last Start, Stop or Continue. */
  function Clocks(bytes: seq<byte>): nat {
    if bytes == [] then 0 else
      var last := bytes[|bytes| - 1];
      if IsTransport(last) then 0
      else if last == CLOCK then Clocks(bytes[..|bytes| - 1]) + 1
      else Clocks(bytes[..|bytes| - 1])
  }

  /** Beat pulses since the last Start, Stop or Continue. */
  function Beats(rs: seq<Result>): nat {
    if rs == [] then 0 else
      match rs[|rs| - 1]
      case TransportStart => 0
      case TransportStop => 0
      case TransportContinue => 0
      case BeatPulse => Beats(rs[..|rs| - 1]) + 1
      case _ => Beats(rs[..|rs| - 1])
  }

  lemma OneMoreClock(n: nat)
    ensures (n + 1) / PULSES_PER_QUARTER
            == n / PULSES_PER_QUARTER + if n % PULSES_PER_QUARTER == PULSES_PER_QUARTER - 1 then 1 else 0
    ensures (n + 1) % PULSES_PER_QUARTER
            == if n % PULSES_PER_QUARTER == PULSES_PER_QUARTER - 1 then 0 else n % PULSES_PER_QUARTER + 1
  {
  }

  /** Over every stream, whatever else is in it, the beat pulses since the last
      Start, Stop or Continue are the clocks since then over 24, rounded down. */
  lemma {:induction false} BeatsAreClocksOver24(bytes: seq<byte>)
    ensures Beats(Results(IDLE, bytes)) == Clocks(bytes) / 24
    ensures After(IDLE, bytes).pulses == Clocks(bytes) % 24
  {
    if bytes == [] {
    } else {
      var front := bytes[..|bytes| - 1];
      BeatsAreClocksOver24(front);
      OneMoreClock(Clocks(front));
      assert Results(IDLE, bytes)[..|front|] == Results(IDLE, front);
    }
  }

  // ---- the program -------------------------------------------------------

  class MidiByteReader {
    const buffer: array<byte>
    var bufferIdx: nat
    var pulseCount: nat

    ghost predicate Sound()
      reads this
    {
      buffer.Length == 3 && bufferIdx < 3 && pulseCount < PULSES_PER_QUARTER
    }

    ghost function State(): (r: Reader)
      requires Sound()
      reads this, buffer
      ensures Valid(r)
    {
      Reader(buffer[..bufferIdx], pulseCount)
    }

    constructor ()
      ensures Sound() && State() == IDLE && fresh(buffer)
    {
      buffer := new byte[3](_ => 0);
      bufferIdx, pulseCount := 0, 0;
    }

    method Feed(b: byte, outMsg: array<byte>) returns (r: Result)
      requires Sound() && outMsg.Length == 3 && outMsg != buffer
      modifies this, buffer, outMsg
      ensures Sound() && Step(State(), r) == Fed(old(State()), b)
      ensures r.ChannelMessage? ==> outMsg[..] == r.message
      ensures !r.ChannelMessage? ==> outMsg[..] == old(outMsg[..])
    {
      if IsRealtime(b) {
        r := FeedRealtime(b);
        return;
      }
      if b >= 0x80 { bufferIdx := 0; }
      ghost var before := buffer[..bufferIdx];
      buffer[bufferIdx] := b;
      bufferIdx := bufferIdx + 1;
      assert buffer[..bufferIdx] == before + [b];
      if bufferIdx >= 3 {
        outMsg[0], outMsg[1], outMsg[2] := buffer[0], buffer[1], buffer[2];
        bufferIdx := 0;
        assert outMsg[..] == buffer[..3];
        return ChannelMessage(buffer[..3]);
      }
      return Nothing;
    }

    method FeedRealtime(b: byte) returns (r: Result)
      requires Sound() && IsRealtime(b)
      modifies this`pulseCount
      ensures Sound() && Step(State(), r) == Realtime(old(State()), b)
    {
      match b
      case 0xF8 =>
        pulseCount := pulseCount + 1;
        if pulseCount >= PULSES_PER_QUARTER {
          pulseCount := 0;
          return BeatPulse;
        }
        return Nothing;
      case 0xFA =>
        pulseCount := 0;
        return TransportStart;
      case 0xFC =>
        pulseCount := 0;
        return TransportStop;
      case 0xFB =>
        pulseCount := 0;
        return TransportContinue;
      case _ =>
        return Nothing;
    }
  }
}
