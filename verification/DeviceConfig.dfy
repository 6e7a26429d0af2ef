/** The CFG1 device configuration blob of device_config.cpp and
    device_config_encoder.cpp: 150 bytes, the last four a CRC-32 of the rest. */
module DeviceConfig {
  import opened Register
  import opened Crc32
  import Bytes

  const BLOB_SIZE: nat := 150
  const CRC_OFFSET: nat := 146
  const VERSION_CURRENT: bv8 := 2
  const VERSION_MIN: bv8 := 1
  const FLAG_USB_MIDI_HOST: bv8 := 0x01
  const FLAG_SKIP_WIFI: bv8 := 0x02
  const FLAG_ARTNET_SYNC_BROADCAST: bv8 := 0x04
  const SSID_MAX: nat := 32
  const PASS_MAX: nat := 64

  /** The strings are the fixed-size character arrays, terminator included. */
  datatype Config = Config(
    usbMidiHost: bool,
    skipWifi: bool,
    wifiSsid: seq<bv8>,
    wifiPass: seq<bv8>,
    artnetFallbackIp: bv32,
    artnetPort: bv16,
    artnetSyncBroadcast: bool,
    dmxTxGpio: bv8,
    dmxRxGpio: bv8,
    dmxRtsGpio: bv8,
    ledGpio: bv8)

  /** The C string held in a character array. */
  function CString(s: seq<bv8>): (r: seq<bv8>)
    ensures |r| <= |s| && r == s[..|r|]
    ensures forall i :: 0 <= i < |r| ==> r[i] != 0
    ensures |r| < |s| ==> s[|r|] == 0
  {
    if s == [] || s[0] == 0 then [] else [s[0]] + CString(s[1..])
  }

  predicate WellFormed(c: Config) {
    |c.wifiSsid| == SSID_MAX + 1 && c.wifiSsid[SSID_MAX] == 0 &&
    |c.wifiPass| == PASS_MAX + 1 && c.wifiPass[PASS_MAX] == 0
  }

  // ---- bytes -------------------------------------------------------------

  function Le32(v: bv32): (r: seq<bv8>)
    ensures |r| == 4
  {
    [(v & 0xFF) as bv8, ((v >> 8) & 0xFF) as bv8, ((v >> 16) & 0xFF) as bv8, ((v >> 24) & 0xFF) as bv8]
  }

  function Le16(v: bv16): (r: seq<bv8>)
    ensures |r| == 2
  {
    [(v & 0xFF) as bv8, ((v >> 8) & 0xFF) as bv8]
  }

  function U16Of(d: seq<bv8>): bv16
    requires |d| == 2
  {
    (d[0] as bv16) | ((d[1] as bv16) << 8)
  }

  lemma Le32RoundTrip(v: bv32)
    ensures WordOf(Le32(v)) == v
  {
  }

  lemma Le16RoundTrip(v: bv16)
    ensures U16Of(Le16(v)) == v
  {
  }

  function Zeros(n: nat): (r: seq<bv8>)
    ensures |r| == n && forall i :: 0 <= i < n ==> r[i] == 0
  {
    seq(n, _ => 0)
  }

  // ---- the format --------------------------------------------------------

  function Flags(c: Config): bv8 {
    (if c.usbMidiHost then FLAG_USB_MIDI_HOST else 0) |
    (if c.skipWifi then FLAG_SKIP_WIFI else 0) |
    (if c.artnetSyncBroadcast then FLAG_ARTNET_SYNC_BROADCAST else 0)
  }

  lemma FlagBits(flags: bv8, c: Config)
    requires flags == Flags(c)
    ensures (flags & FLAG_USB_MIDI_HOST != 0) == c.usbMidiHost
    ensures (flags & FLAG_SKIP_WIFI != 0) == c.skipWifi
    ensures (flags & FLAG_ARTNET_SYNC_BROADCAST != 0) == c.artnetSyncBroadcast
  {
  }

  /** A C string cut or zero-padded to a field. */
  function Padded(s: seq<bv8>, n: nat): (r: seq<bv8>)
    ensures |r| == n
  {
    var c := CString(s);
    if |c| >= n then c[..n] else c + Zeros(n - |c|)
  }

  function Payload(c: Config): (r: seq<bv8>)
    ensures |r| == CRC_OFFSET
  {
    [0x43, 0x46, 0x47, 0x31, VERSION_CURRENT, Flags(c)] + Le16(0) +
    Padded(c.wifiSsid, SSID_MAX) + Padded(c.wifiPass, PASS_MAX) +
    Le32(c.artnetFallbackIp) + Le16(c.artnetPort) +
    [c.dmxTxGpio, c.dmxRxGpio, c.dmxRtsGpio, c.ledGpio] + Zeros(32)
  }

  function Encoded(c: Config): (r: seq<bv8>)
    ensures |r| == BLOB_SIZE
  {
    Payload(c) + Le32(Crc(Payload(c)))
  }

  predicate Accepted(d: seq<bv8>) {
    |d| >= BLOB_SIZE && d[0] == 0x43 && d[1] == 0x46 && d[2] == 0x47 && d[3] == 0x31 &&
    VERSION_MIN <= d[4] <= VERSION_CURRENT &&
    WordOf(d[CRC_OFFSET..BLOB_SIZE]) == Crc(d[..CRC_OFFSET])
  }

  function Decoded(d: seq<bv8>): Config
    requires |d| >= BLOB_SIZE
  {
    Config(
      d[5] & FLAG_USB_MIDI_HOST != 0,
      d[5] & FLAG_SKIP_WIFI != 0,
      d[8..40] + [0],
      d[40..104] + [0],
      WordOf(d[104..108]),
      U16Of(d[108..110]),
      d[4] >= 2 && d[5] & FLAG_ARTNET_SYNC_BROADCAST != 0,
      d[110], d[111], d[112], d[113])
  }

  // ---- error detection ---------------------------------------------------

  lemma AcceptedResidue(d: seq<bv8>)
    requires Accepted(d)
    ensures Fold(FeedByte, ONES, d[..150]) == 0xDEBB_20E3
  {
    assert d[..BLOB_SIZE] == d[..CRC_OFFSET] + d[CRC_OFFSET..BLOB_SIZE];
    ResidueIffMatching(d[..CRC_OFFSET], d[CRC_OFFSET..BLOB_SIZE]);
  }

  /** Any change confined to four consecutive bytes of an accepted blob, the CRC
      field included, makes it rejected. */
  lemma BurstRejected(a: seq<bv8>, b: seq<bv8>, i: nat)
    requires Accepted(a) && i + 4 <= BLOB_SIZE
    requires SameOutside(a, b, i, 4) && a != b
    ensures !Accepted(b)
  {
    if Accepted(b) {
      AcceptedResidue(a);
      AcceptedResidue(b);
      var p, q := a[..BLOB_SIZE], b[..BLOB_SIZE];
      assert SameOutside(p, q, i, 4);
      assert a == p + a[BLOB_SIZE..] && b == q + b[BLOB_SIZE..];
      assert a[BLOB_SIZE..] == b[BLOB_SIZE..];
      BurstChangesRegister(ONES, p, q, i);
    }
  }

  /** So does changing any one byte. */
  lemma SingleByteRejected(a: seq<bv8>, i: nat, x: bv8)
    requires Accepted(a) && i < BLOB_SIZE && x != a[i]
    ensures !Accepted(a[i := x])
  {
    BurstRejected(a, a[i := x], if i < BLOB_SIZE - 4 then i else BLOB_SIZE - 4);
  }

  // ---- round trip --------------------------------------------------------

  lemma {:induction false} CStringThenZeros(c: seq<bv8>, n: nat)
    requires n > 0 && forall i :: 0 <= i < |c| ==> c[i] != 0
    ensures CString(c + Zeros(n)) == c
  {
    if c == [] {
    } else {
      assert (c + Zeros(n))[1..] == c[1..] + Zeros(n);
      CStringThenZeros(c[1..], n);
    }
  }

  lemma PaddedCString(s: seq<bv8>, n: nat)
    requires |s| == n + 1 && s[n] == 0
    ensures CString(Padded(s, n) + [0]) == CString(s)
    ensures (forall i :: |CString(s)| <= i < |s| ==> s[i] == 0) ==> Padded(s, n) + [0] == s
  {
    var c := CString(s);
    assert |c| <= n;
    PaddedThenNul(c, n);
    CStringThenZeros(c, n + 1 - |c|);
    if forall i :: |c| <= i < |s| ==> s[i] == 0 { ZeroTail(s, c, n); }
  }

  lemma PaddedThenNul(c: seq<bv8>, n: nat)
    requires |c| <= n
    ensures (c + Zeros(n - |c|)) + [0] == c + Zeros(n + 1 - |c|)
  {
  }

  lemma ZeroTail(s: seq<bv8>, c: seq<bv8>, n: nat)
    requires |s| == n + 1 && |c| <= n && c == s[..|c|] && forall i :: |c| <= i < |s| ==> s[i] == 0
    ensures c + Zeros(n + 1 - |c|) == s
  {
    forall i | 0 <= i < |s| ensures (c + Zeros(n + 1 - |c|))[i] == s[i] {}
  }

  /** Where the fields lie. */
  lemma Layout(c: Config)
    ensures var e := Encoded(c);
            e[..6] == [0x43, 0x46, 0x47, 0x31, VERSION_CURRENT, Flags(c)] &&
            e[8..40] == Padded(c.wifiSsid, SSID_MAX) && e[40..104] == Padded(c.wifiPass, PASS_MAX) &&
            e[104..108] == Le32(c.artnetFallbackIp) && e[108..110] == Le16(c.artnetPort) &&
            e[110..114] == [c.dmxTxGpio, c.dmxRxGpio, c.dmxRtsGpio, c.ledGpio] &&
            e[..CRC_OFFSET] == Payload(c) && e[CRC_OFFSET..BLOB_SIZE] == Le32(Crc(Payload(c)))
  {
    Slices([0x43, 0x46, 0x47, 0x31, VERSION_CURRENT, Flags(c)], Le16(0),
           Padded(c.wifiSsid, SSID_MAX), Padded(c.wifiPass, PASS_MAX),
           Le32(c.artnetFallbackIp), Le16(c.artnetPort),
           [c.dmxTxGpio, c.dmxRxGpio, c.dmxRtsGpio, c.ledGpio], Zeros(32), Le32(Crc(Payload(c))));
  }

  lemma Slices<T>(a: seq<T>, b: seq<T>, c: seq<T>, d: seq<T>, e: seq<T>, f: seq<T>, g: seq<T>, h: seq<T>, k: seq<T>)
    requires |a| == 6 && |b| == 2 && |c| == 32 && |d| == 64 && |e| == 4 && |f| == 2 && |g| == 4 && |h| == 32
    requires |k| == 4
    ensures var p := a + b + c + d + e + f + g + h; var s := p + k;
            |p| == 146 && |s| == 150 && s[..146] == p && s[146..150] == k &&
            s[..6] == a && s[8..40] == c && s[40..104] == d && s[104..108] == e && s[108..110] == f &&
            s[110..114] == g
  {
  }

  lemma HeaderRoundTrip(c: Config)
    ensures Accepted(Encoded(c))
    ensures var r := Decoded(Encoded(c));
            r.usbMidiHost == c.usbMidiHost && r.skipWifi == c.skipWifi &&
            r.artnetSyncBroadcast == c.artnetSyncBroadcast
  {
    var e := Encoded(c);
    Layout(c);
    assert forall i :: 0 <= i < 6 ==> e[i] == e[..6][i];
    Le32RoundTrip(Crc(Payload(c)));
    FlagBits(e[5], c);
  }

  /** What is encoded is accepted and decodes to the same configuration: the same
      flags, numbers and C strings, and the very same record when the unused tails
      of the character arrays are zero. */
  lemma RoundTrip(c: Config)
    requires WellFormed(c)
    ensures Accepted(Encoded(c))
    ensures var r := Decoded(Encoded(c));
            CString(r.wifiSsid) == CString(c.wifiSsid) && CString(r.wifiPass) == CString(c.wifiPass) &&
            r == c.(wifiSsid := r.wifiSsid, wifiPass := r.wifiPass)
    ensures (forall i :: |CString(c.wifiSsid)| <= i < |c.wifiSsid| ==> c.wifiSsid[i] == 0) &&
            (forall i :: |CString(c.wifiPass)| <= i < |c.wifiPass| ==> c.wifiPass[i] == 0) ==>
            Decoded(Encoded(c)) == c
  {
    var e := Encoded(c);
    Layout(c);
    HeaderRoundTrip(c);
    Le32RoundTrip(c.artnetFallbackIp);
    Le16RoundTrip(c.artnetPort);
    PaddedCString(c.wifiSsid, SSID_MAX);
    PaddedCString(c.wifiPass, PASS_MAX);
    assert forall i :: 110 <= i < 114 ==> e[i] == e[110..114][i - 110];
  }

  // ---- the program -------------------------------------------------------

  /** Writes `bytes` into a blob that is zero from `off` on. */
  method Put(b: array<bv8>, off: nat, bytes: seq<bv8>, ghost done: seq<bv8>)
    requires off == |done| && off + |bytes| <= b.Length
    requires b[..] == done + Zeros(b.Length - off)
    modifies b
    ensures b[..] == done + bytes + Zeros(b.Length - off - |bytes|)
  {
    for i := 0 to |bytes|
      invariant forall k :: 0 <= k < b.Length ==>
                  b[k] == if k < off then done[k] else if k < off + i then bytes[k - off] else 0
    {
      b[off + i] := bytes[i];
    }
  }

  /** Copies a C string into a field of the zeroed blob. */
  method PutPadded(b: array<bv8>, off: nat, n: nat, s: seq<bv8>, ghost done: seq<bv8>)
    requires off == |done| && off + n <= b.Length
    requires b[..] == done + Zeros(b.Length - off)
    modifies b
    ensures b[..] == done + Padded(s, n) + Zeros(b.Length - off - n)
  {
    var c := CString(s);
    var len := if |c| < n then |c| else n;
    Put(b, off, c[..len], done);
    assert done + c[..len] + Zeros(b.Length - off - len) == done + Padded(s, n) + Zeros(b.Length - off - n);
  }

  method FlagByte(c: Config) returns (flags: bv8)
    ensures flags == Flags(c)
  {
    flags := 0;
    if c.usbMidiHost { flags := flags | FLAG_USB_MIDI_HOST; }
    if c.skipWifi { flags := flags | FLAG_SKIP_WIFI; }
    if c.artnetSyncBroadcast { flags := flags | FLAG_ARTNET_SYNC_BROADCAST; }
  }

  function Head(c: Config): (h: seq<bv8>)
    ensures |h| == 8
  {
    [0x43, 0x46, 0x47, 0x31, VERSION_CURRENT, Flags(c)] + Le16(0)
  }

  method PutHead(b: array<bv8>, c: Config)
    requires b.Length == BLOB_SIZE && b[..] == Zeros(BLOB_SIZE)
    modifies b
    ensures b[..] == Head(c) + Zeros(BLOB_SIZE - 8)
  {
    var flags := FlagByte(c);
    var magic := [0x43, 0x46, 0x47, 0x31, VERSION_CURRENT, flags];
    assert b[..] == [] + Zeros(BLOB_SIZE) && [] + magic == magic;
    Put(b, 0, magic, []);
    Put(b, 6, Le16(0), magic);
  }

  /** The fields before the CRC, in a zeroed blob. */
  method PutFields(b: array<bv8>, c: Config)
    requires b.Length == BLOB_SIZE && b[..] == Zeros(BLOB_SIZE)
    modifies b
    ensures b[..] == Payload(c) + Zeros(4)
  {
    PutHead(b, c);
    ghost var done := Head(c) + Padded(c.wifiSsid, SSID_MAX);
    PutPadded(b, 8, SSID_MAX, c.wifiSsid, Head(c));
    PutPadded(b, 8 + SSID_MAX, PASS_MAX, c.wifiPass, done);
    done := done + Padded(c.wifiPass, PASS_MAX);
    PutNumbers(b, 8 + SSID_MAX + PASS_MAX, c, done);
    Regroup(done, Le32(c.artnetFallbackIp), Le16(c.artnetPort),
            [c.dmxTxGpio, c.dmxRxGpio, c.dmxRtsGpio, c.ledGpio], Zeros(32));
    assert Zeros(36) == Zeros(32) + Zeros(4);
  }

  lemma Regroup<T>(front: seq<T>, a: seq<T>, b: seq<T>, c: seq<T>, last: seq<T>)
    ensures front + (a + b + c) + last == front + a + b + c + last
  {
  }

  function Numbers(c: Config): (n: seq<bv8>)
    ensures |n| == 10
  {
    Le32(c.artnetFallbackIp) + Le16(c.artnetPort) + [c.dmxTxGpio, c.dmxRxGpio, c.dmxRtsGpio, c.ledGpio]
  }

  method PutNumbers(b: array<bv8>, at: nat, c: Config, ghost before: seq<bv8>)
    requires at == |before| && at + 10 <= b.Length && b[..] == before + Zeros(b.Length - at)
    modifies b
    ensures b[..] == before + Numbers(c) + Zeros(b.Length - at - 10)
  {
    var off := at;
    ghost var done := before;
    Put(b, off, Le32(c.artnetFallbackIp), done);
    done := done + Le32(c.artnetFallbackIp);
    off := off + 4;
    Put(b, off, Le16(c.artnetPort), done);
    done := done + Le16(c.artnetPort);
    off := off + 2;
    var pins := [c.dmxTxGpio, c.dmxRxGpio, c.dmxRtsGpio, c.ledGpio];
    Put(b, off, pins, done);
    assert before + Numbers(c) == done + pins;
  }

  method Encode(c: Config) returns (blob: seq<bv8>)
    requires WellFormed(c)
    ensures blob == Encoded(c)
  {
    var b := new bv8[BLOB_SIZE](_ => 0);
    assert b[..] == Zeros(BLOB_SIZE);
    PutFields(b, c);
    assert b[..CRC_OFFSET] == Payload(c) && b[..][..CRC_OFFSET] == Payload(c);
    var crc := Compute(b[..], CRC_OFFSET);
    Put(b, CRC_OFFSET, Le32(crc), Payload(c));
    blob := b[..];
    assert Zeros(0) == [];
    assert blob == Payload(c) + Le32(crc) + [] == Encoded(c);
  }

  method Parse(d: seq<bv8>) returns (r: Bytes.Option<Config>)
    ensures r.Some? <==> Accepted(d)
    ensures r.Some? ==> r.value == Decoded(d)
  {
    if |d| < BLOB_SIZE { return Bytes.None; }
    if d[0] != 0x43 || d[1] != 0x46 || d[2] != 0x47 || d[3] != 0x31 { return Bytes.None; }
    var version := d[4];
    if version < VERSION_MIN || version > VERSION_CURRENT { return Bytes.None; }
    var flags := d[5];
    var stored := WordOf(d[CRC_OFFSET..CRC_OFFSET + 4]);
    var computed := Compute(d, CRC_OFFSET);
    if stored != computed { return Bytes.None; }
    var off := 8;
    var ssid := d[off..off + SSID_MAX] + [0];
    off := off + SSID_MAX;
    var pass := d[off..off + PASS_MAX] + [0];
    off := off + PASS_MAX;
    var ip := WordOf(d[off..off + 4]);
    off := off + 4;
    var port := U16Of(d[off..off + 2]);
    off := off + 2;
    r := Bytes.Some(Config(
      flags & FLAG_USB_MIDI_HOST != 0, flags & FLAG_SKIP_WIFI != 0, ssid, pass, ip, port,
      version >= 2 && flags & FLAG_ARTNET_SYNC_BROADCAST != 0,
      d[off], d[off + 1], d[off + 2], d[off + 3]));
  }
}
