/** The OSC packets of osc_parser.cpp: what walking any byte string dispatches, and
    what packets built by the rules of OSC 1.0 (sections "OSC Strings", "OSC
    Messages" and "OSC Bundles") dispatch. */
module Osc {
  import opened Bytes
  import opened ControlTypes

  const SLASH: byte := 0x2F
  const COMMA: byte := 0x2C
  const FLOAT_TAG: byte := 0x66
  const INT_TAG: byte := 0x69
  const MARKER: seq<byte> := [0x23, 0x62, 0x75, 0x6E, 0x64, 0x6C, 0x65, 0]
  const MAX_DEPTH: nat := 8

  datatype Binding = Binding(address: seq<byte>, kind: ControlType, id: u16)

  /** A float's bit pattern, or a 32-bit integer standing for that number over 127. */
  datatype Arg = FloatArg(bits: u32) | IntArg(raw: u32)

  const NO_VALUE: Arg := FloatArg(0)

  datatype Event = Event(kind: ControlType, id: u16, pressed: bool, value: Arg)

  /** The number is not zero; both float zeros are. */
  predicate NonZero(a: Arg) {
    match a
    case FloatArg(bits) => bits != 0 && bits != 0x8000_0000
    case IntArg(raw) => raw != 0
  }

  // ---- parsing one message -----------------------------------------------

  function Aligned(n: nat): (r: nat)
    ensures n <= r < n + 4 && r % 4 == 0
  {
    (n + 3) / 4 * 4
  }

  predicate AllZero(pkt: seq<byte>, from: nat, to: nat) {
    from <= to <= |pkt| && forall k :: from <= k < to ==> pkt[k] == 0
  }

  datatype Text = Text(len: nat, end: nat)

  /** The padded string at `start`: its length, and where the next field starts. */
  function OscString(pkt: seq<byte>, start: nat): (r: Option<Text>)
    ensures r.Some? ==> start + r.value.len < r.value.end <= |pkt|
  {
    if start >= |pkt| then None else
      var i := start + |CStringAt(pkt, start)|;
      if i >= |pkt| || Aligned(i + 1) > |pkt| || !AllZero(pkt, i + 1, Aligned(i + 1)) then None
      else Some(Text(i - start, Aligned(i + 1)))
  }

  function Be32At(pkt: seq<byte>, off: nat): u32
    requires off + 4 <= |pkt|
  {
    16777216 * (pkt[off] as int) + 65536 * (pkt[off + 1] as int) + 256 * (pkt[off + 2] as int) + pkt[off + 3] as int
  }

  /** The first binding for that address. */
  function Lookup(bindings: seq<Binding>, address: seq<byte>): Option<Binding> {
    if bindings == [] then None
    else if bindings[0].address == address then Some(bindings[0])
    else Lookup(bindings[1..], address)
  }

  function EventFor(b: Binding, a: Arg): Event {
    if b.kind == Button then Event(Button, b.id, NonZero(a), NO_VALUE) else Event(b.kind, b.id, false, a)
  }

  datatype Message = Message(address: seq<byte>, arg: Arg)

  /** The message a packet holds, whatever it is bound to. */
  function MessageIn(pkt: seq<byte>): Option<Message> {
    match OscString(pkt, 0)
    case None => None
    case Some(addr) =>
      if addr.len == 0 || pkt[0] != SLASH then None else
        match OscString(pkt, addr.end)
        case None => None
        case Some(tag) => TaggedArg(pkt, addr, tag)
  }

  function TaggedArg(pkt: seq<byte>, addr: Text, tag: Text): Option<Message>
    requires addr.len <= |pkt| && addr.end + tag.len < tag.end <= |pkt|
  {
    if tag.len != 2 || pkt[addr.end] != COMMA || (pkt[addr.end + 1] != FLOAT_TAG && pkt[addr.end + 1] != INT_TAG) then None
    else if tag.end + 4 > |pkt| then None
    else
      var raw := Be32At(pkt, tag.end);
      Some(Message(pkt[..addr.len], if pkt[addr.end + 1] == FLOAT_TAG then FloatArg(raw) else IntArg(raw)))
  }

  function Dispatch(bindings: seq<Binding>, m: Message): seq<Event> {
    match Lookup(bindings, m.address)
    case None => []
    case Some(b) => [EventFor(b, m.arg)]
  }

  // ---- walking a packet --------------------------------------------------

  predicate IsBundle(pkt: seq<byte>) {
    |pkt| >= 8 && pkt[..8] == MARKER
  }

  /** What becomes of a packet that is not a bundle. */
  type Handler = seq<byte> -> seq<Event>

  function PacketEvents(pkt: seq<byte>, bindings: seq<Binding>): seq<Event> {
    match MessageIn(pkt)
    case None => []
    case Some(m) => Dispatch(bindings, m)
  }

  function Handling(bindings: seq<Binding>): Handler {
    (pkt: seq<byte>) => PacketEvents(pkt, bindings)
  }

  /** The events of any byte string, as a packet at that nesting depth. */
  function Walk(pkt: seq<byte>, handle: Handler, depth: nat): seq<Event>
    decreases |pkt|, |pkt| + 1
  {
    if pkt == [] then []
    else if !IsBundle(pkt) then handle(pkt)
    else if depth >= MAX_DEPTH || |pkt| < 16 then []
    else Elements(pkt, 16, handle, depth)
  }

  datatype Element = Element(bytes: seq<byte>, next: nat)

  /** The bundle element at `pos`, unless its size is malformed. */
  function ElementAt(pkt: seq<byte>, pos: nat): (r: Option<Element>)
    requires 16 <= pos <= |pkt|
    ensures r.Some? ==> pos < r.value.next <= |pkt| && 0 < |r.value.bytes| < |pkt|
  {
    if pos + 4 > |pkt| then None else
      var size := Be32At(pkt, pos);
      if size == 0 || pos + 4 + size > |pkt| then None
      else Some(Element(pkt[pos + 4..pos + 4 + size], pos + 4 + size))
  }

  /** The events of a bundle's elements from `pos` on, up to the first malformed one. */
  function Elements(pkt: seq<byte>, pos: nat, handle: Handler, depth: nat): seq<Event>
    requires 16 <= pos <= |pkt|
    decreases |pkt|, |pkt| - pos
  {
    match ElementAt(pkt, pos)
    case None => []
    case Some(e) => Walk(e.bytes, handle, depth + 1) + Elements(pkt, e.next, handle, depth)
  }

  // ---- packets by the rules ----------------------------------------------

  /** A packet as a tree. A leaf is any bytes that open no bundle: a message of
      whatever arguments, or garbage. `rest` is what follows a bundle's last framed
      element. */
  datatype Tree = Leaf(bytes: seq<byte>) | Bundle(timetag: seq<byte>, elements: seq<Tree>, rest: seq<byte>)

  function Zeros(n: nat): (z: seq<byte>)
    ensures |z| == n && forall k :: 0 <= k < n ==> z[k] == 0
  {
    seq(n, _ => 0)
  }

  /** An OSC string: the text, a NUL, and NULs up to a multiple of four. */
  function Padded(s: seq<byte>): (p: seq<byte>)
    ensures |p| % 4 == 0 && |p| > |s|
  {
    s + Zeros(Aligned(|s| + 1) - |s|)
  }

  function Be32(v: u32): (b: seq<byte>)
    ensures |b| == 4
  {
    [v / 16777216, v / 65536 % 256, v / 256 % 256, v % 256]
  }

  function Tag(a: Arg): seq<byte> {
    [COMMA, if a.FloatArg? then FLOAT_TAG else INT_TAG]
  }

  function Raw(a: Arg): u32 {
    match a
    case FloatArg(bits) => bits
    case IntArg(raw) => raw
  }

  function EncodeMessage(m: Message): seq<byte> {
    Padded(m.address) + Padded(Tag(m.arg)) + Be32(Raw(m.arg))
  }

  function Encode(t: Tree): seq<byte>
    decreases t
  {
    match t
    case Leaf(bytes) => bytes
    case Bundle(timetag, elements, rest) => MARKER + timetag + (EncodeAll(elements) + rest)
  }

  function EncodeAll(ts: seq<Tree>): seq<byte>
    decreases ts
  {
    if ts == [] then [] else
      var e := Encode(ts[0]);
      Be32(|e| % 0x1_0000_0000) + e + EncodeAll(ts[1..])
  }

  /** Too short for a bundle's timetag, or no bundle at all. */
  predicate OpensNoBundle(pkt: seq<byte>) {
    !IsBundle(pkt) || |pkt| < 16
  }

  /** No further element is framed there. */
  predicate Unframed(rest: seq<byte>) {
    |rest| < 4 || Be32At(rest, 0) == 0 || 4 + Be32At(rest, 0) > |rest|
  }

  /** Timetags are eight bytes, leaves are not empty and every element's size fits
      its prefix. */
  predicate Proper(t: Tree)
    decreases t
  {
    match t
    case Leaf(bytes) => bytes != [] && OpensNoBundle(bytes)
    case Bundle(timetag, elements, rest) => |timetag| == 8 && ProperAll(elements) && Unframed(rest)
  }

  predicate ProperAll(ts: seq<Tree>)
    decreases ts
  {
    ts != [] ==> Proper(ts[0]) && |Encode(ts[0])| < 0x1_0000_0000 && ProperAll(ts[1..])
  }

  /** What a leaf dispatches on its own. */
  function LeafEvents(bytes: seq<byte>, handle: Handler): seq<Event> {
    if bytes == [] || IsBundle(bytes) then [] else handle(bytes)
  }

  /** The leaves' events in order; bundles nested eight deep or more add nothing. */
  function Events(t: Tree, handle: Handler, depth: nat): seq<Event>
    decreases t
  {
    match t
    case Leaf(bytes) => LeafEvents(bytes, handle)
    case Bundle(_, elements, _) => if depth >= MAX_DEPTH then [] else EventsAll(elements, handle, depth + 1)
  }

  function EventsAll(ts: seq<Tree>, handle: Handler, depth: nat): seq<Event>
    decreases ts
  {
    if ts == [] then [] else Events(ts[0], handle, depth) + EventsAll(ts[1..], handle, depth)
  }

  function Leaves(t: Tree): seq<seq<byte>>
    decreases t
  {
    match t
    case Leaf(bytes) => [bytes]
    case Bundle(_, elements, _) => LeavesAll(elements)
  }

  function LeavesAll(ts: seq<Tree>): seq<seq<byte>>
    decreases ts
  {
    if ts == [] then [] else Leaves(ts[0]) + LeavesAll(ts[1..])
  }

  /** At most `n` bundles inside one another. */
  predicate NestedAtMost(t: Tree, n: nat)
    decreases t
  {
    match t
    case Leaf(_) => true
    case Bundle(_, elements, _) => n > 0 && AllNestedAtMost(elements, n - 1)
  }

  predicate AllNestedAtMost(ts: seq<Tree>, n: nat)
    decreases ts
  {
    ts != [] ==> NestedAtMost(ts[0], n) && AllNestedAtMost(ts[1..], n)
  }

  function DispatchAll(handle: Handler, leaves: seq<seq<byte>>): seq<Event> {
    if leaves == [] then [] else LeafEvents(leaves[0], handle) + DispatchAll(handle, leaves[1..])
  }

  // ---- proofs ------------------------------------------------------------

  lemma Be32ReadsBack(pkt: seq<byte>, off: nat, v: u32)
    requires Holds(pkt, off, Be32(v))
    ensures Be32At(pkt, off) == v
  {
    var b := Be32(v);
    assert forall k :: 0 <= k < 4 ==> pkt[off..off + 4][k] == b[k];
    assert pkt[off] == b[0] && pkt[off + 1] == b[1] && pkt[off + 2] == b[2] && pkt[off + 3] == b[3];
    FourDigits(v);
  }

  lemma AlignedShift(start: nat, n: nat)
    requires start % 4 == 0
    ensures Aligned(start + n) == start + Aligned(n)
  {
  }

  lemma PaddingRead(pkt: seq<byte>, start: nat, s: seq<byte>)
    requires Holds(pkt, start, Padded(s))
    ensures pkt[start..start + |s|] == s && pkt[start..start + |s| + 1] == s + [0]
    ensures AllZero(pkt, start + |s| + 1, start + |Padded(s)|)
  {
    var p := Padded(s);
    forall k | 0 <= k < |p| ensures pkt[start + k] == p[k] {
      assert pkt[start..start + |p|][k] == p[k];
    }
    assert p[0..|s|] == s && p[0..|s| + 1] == s + [0];
    SliceOfSlice(pkt, start, p, 0, s);
    SliceOfSlice(pkt, start, p, 0, s + [0]);
    forall k | start + |s| + 1 <= k < start + |p| ensures pkt[k] == 0 {
      assert pkt[start + (k - start)] == p[k - start];
    }
  }

  /** A padded NUL-free string reads back, wherever it stands on a boundary. */
  lemma {:induction false} PaddedReadsBack(pkt: seq<byte>, start: nat, s: seq<byte>, text: Text)
    requires NulFree(s) && start % 4 == 0 && Holds(pkt, start, Padded(s))
    requires text.len == |s| && text.end == start + |Padded(s)|
    ensures OscString(pkt, start) == Some(text) && pkt[start..start + |s|] == s
  {
    PaddingRead(pkt, start, s);
    NameReadsBack(pkt, start, s);
    AlignedShift(start, |s| + 1);
  }

  lemma NotABundle(pkt: seq<byte>)
    requires pkt != [] && pkt[0] == SLASH
    ensures !IsBundle(pkt)
  {
    if |pkt| >= 8 { assert pkt[..8][0] == pkt[0]; }
  }

  lemma {:induction false} AddressReadsBack(pkt: seq<byte>, address: seq<byte>, text: Text)
    requires address != [] && address[0] == SLASH && NulFree(address) && Holds(pkt, 0, Padded(address))
    requires text.len == |address| && text.end == |Padded(address)|
    ensures OscString(pkt, 0) == Some(text)
    ensures pkt[..|address|] == address && pkt[0] == SLASH
  {
    PaddedReadsBack(pkt, 0, address, text);
    assert pkt[0..0 + |address|] == pkt[..|address|];
    assert pkt[0] == pkt[..|address|][0];
  }

  /** A message by the rules: an address and one float or integer argument. */
  predicate IsRegular(m: Message) {
    m.address != [] && m.address[0] == SLASH && NulFree(m.address)
  }

  /** A leaf that is such a message dispatches its event. */
  lemma {:induction false} MessageReadsBack(m: Message, bindings: seq<Binding>)
    requires IsRegular(m)
    ensures MessageIn(EncodeMessage(m)) == Some(m) && Proper(Leaf(EncodeMessage(m)))
    ensures LeafEvents(EncodeMessage(m), Handling(bindings)) == Dispatch(bindings, m)
  {
    var address, tag, arg := Padded(m.address), Padded(Tag(m.arg)), Be32(Raw(m.arg));
    PartsReadBack(m, address + tag + arg, address, tag, arg);
  }

  lemma MessageIs(pkt: seq<byte>, addr: Text, tag: Text, a: Arg)
    requires OscString(pkt, 0) == Some(addr) && addr.len > 0 && pkt[0] == SLASH
    requires OscString(pkt, addr.end) == Some(tag) && tag.len == 2 && tag.end + 4 <= |pkt|
    requires pkt[addr.end] == COMMA && pkt[addr.end + 1] == if a.FloatArg? then FLOAT_TAG else INT_TAG
    requires Be32At(pkt, tag.end) == Raw(a)
    ensures MessageIn(pkt) == Some(Message(pkt[..addr.len], a))
  {
  }

  lemma PartsHeld(pkt: seq<byte>, address: seq<byte>, tag: seq<byte>, arg: seq<byte>)
    requires pkt == address + tag + arg
    ensures Holds(pkt, 0, address) && Holds(pkt, |address|, tag) && Holds(pkt, |address + tag|, arg)
  {
    assert pkt[0..|pkt|] == pkt;
    HoldsParts(pkt, 0, address + tag, arg);
    HoldsParts(pkt, 0, address, tag);
  }

  lemma {:induction false} PartsReadBack(m: Message, pkt: seq<byte>, address: seq<byte>, tag: seq<byte>, arg: seq<byte>)
    requires IsRegular(m) && pkt == address + tag + arg
    requires address == Padded(m.address) && tag == Padded(Tag(m.arg)) && arg == Be32(Raw(m.arg))
    ensures MessageIn(pkt) == Some(m) && pkt != [] && !IsBundle(pkt)
  {
    PartsHeld(pkt, address, tag, arg);
    var first, second := Text(|m.address|, |address|), Text(2, |address + tag|);
    AddressReadsBack(pkt, m.address, first);
    NotABundle(pkt);
    PaddedReadsBack(pkt, |address|, Tag(m.arg), second);
    TagReadsBack(pkt, |address|, m.arg);
    Be32ReadsBack(pkt, second.end, Raw(m.arg));
    MessageIs(pkt, first, second, m.arg);
  }

  lemma TagReadsBack(pkt: seq<byte>, at: nat, a: Arg)
    requires at + 2 <= |pkt| && pkt[at..at + |Tag(a)|] == Tag(a)
    ensures pkt[at] == COMMA && pkt[at + 1] == if a.FloatArg? then FLOAT_TAG else INT_TAG
  {
    assert pkt[at..at + 2][0] == Tag(a)[0] && pkt[at..at + 2][1] == Tag(a)[1];
  }

  /** The tags of the messages the parser takes. */
  predicate OneNumber(tags: seq<byte>) {
    tags == [COMMA, FLOAT_TAG] || tags == [COMMA, INT_TAG]
  }

  lemma {:induction false} StringsRead(pkt: seq<byte>, address: seq<byte>, tags: seq<byte>, args: seq<byte>, at: nat, end: nat)
    requires NulFree(address) && NulFree(tags) && pkt == Padded(address) + Padded(tags) + args
    requires at == |Padded(address)| && end == at + |Padded(tags)|
    ensures OscString(pkt, 0) == Some(Text(|address|, at)) && OscString(pkt, at) == Some(Text(|tags|, end))
    ensures pkt[..|address|] == address && pkt[at..at + |tags|] == tags && |pkt| == end + |args|
  {
    PartsHeld(pkt, Padded(address), Padded(tags), args);
    PaddedReadsBack(pkt, 0, address, Text(|address|, at));
    PaddedReadsBack(pkt, at, tags, Text(|tags|, end));
  }

  /** Any address, type tags and argument bytes by the rules: what is not an address
      with exactly one float or integer argument is no message to the parser. */
  lemma {:induction false} OtherArguments(address: seq<byte>, tags: seq<byte>, args: seq<byte>)
    requires NulFree(address) && NulFree(tags)
    ensures MessageIn(Padded(address) + Padded(tags) + args).Some? <==>
              address != [] && address[0] == SLASH && OneNumber(tags) && |args| >= 4
  {
    var pkt, at := Padded(address) + Padded(tags) + args, |Padded(address)|;
    StringsRead(pkt, address, tags, args, at, at + |Padded(tags)|);
    TakenIff(pkt, address, tags, args, at, at + |Padded(tags)|);
  }

  lemma TakenIff(pkt: seq<byte>, address: seq<byte>, tags: seq<byte>, args: seq<byte>, at: nat, end: nat)
    requires OscString(pkt, 0) == Some(Text(|address|, at)) && OscString(pkt, at) == Some(Text(|tags|, end))
    requires pkt[..|address|] == address && pkt[at..at + |tags|] == tags && |pkt| == end + |args|
    ensures MessageIn(pkt).Some? <==> address != [] && address[0] == SLASH && OneNumber(tags) && |args| >= 4
  {
    if address != [] { assert pkt[0] == pkt[..|address|][0]; }
    TagsAt(pkt, at, tags);
  }

  lemma TagsAt(pkt: seq<byte>, at: nat, tags: seq<byte>)
    requires at + |tags| <= |pkt| && pkt[at..at + |tags|] == tags
    ensures |tags| == 2 ==> pkt[at] == tags[0] && pkt[at + 1] == tags[1]
  {
    if |tags| == 2 {
      assert pkt[at..at + 2][0] == tags[0] && pkt[at..at + 2][1] == tags[1];
    }
  }

  lemma BundleFramed(timetag: seq<byte>, body: seq<byte>)
    requires |timetag| == 8
    ensures var pkt := MARKER + timetag + body;
            IsBundle(pkt) && |pkt| >= 16 && pkt[16..] == body
  {
    var pkt := MARKER + timetag + body;
    assert |MARKER| == 8;
    assert pkt[..8] == MARKER && pkt[16..] == body;
  }

  lemma RestUnframed(pkt: seq<byte>, pos: nat, rest: seq<byte>)
    requires 16 <= pos <= |pkt| && pkt[pos..] == rest && Unframed(rest)
    ensures ElementAt(pkt, pos) == None
  {
    if pos + 4 <= |pkt| {
      assert pkt[pos] == rest[0] && pkt[pos + 1] == rest[1] && pkt[pos + 2] == rest[2] && pkt[pos + 3] == rest[3];
    }
  }

  /** Walking an encoded tree dispatches exactly its events, at any depth. */
  lemma {:induction false} WalkTree(t: Tree, handle: Handler, depth: nat)
    requires Proper(t)
    ensures Walk(Encode(t), handle, depth) == Events(t, handle, depth) && Encode(t) != []
    decreases t
  {
    match t
    case Leaf(bytes) =>
    case Bundle(timetag, elements, rest) =>
      BundleFramed(timetag, EncodeAll(elements) + rest);
      if depth < MAX_DEPTH {
        WalkElements(Encode(t), 16, elements, rest, handle, depth);
      }
  }

  lemma ElementsNext(pkt: seq<byte>, pos: nat, e: Element, handle: Handler, depth: nat)
    requires 16 <= pos <= |pkt| && ElementAt(pkt, pos) == Some(e)
    ensures Elements(pkt, pos, handle, depth) == Walk(e.bytes, handle, depth + 1) + Elements(pkt, e.next, handle, depth)
  {
  }

  lemma EventsAllNext(ts: seq<Tree>, handle: Handler, depth: nat)
    requires ts != []
    ensures EventsAll(ts, handle, depth) == Events(ts[0], handle, depth) + EventsAll(ts[1..], handle, depth)
  {
  }

  lemma {:induction false} WalkElements(pkt: seq<byte>, pos: nat, ts: seq<Tree>, rest: seq<byte>, handle: Handler, depth: nat)
    requires ProperAll(ts) && Unframed(rest) && 16 <= pos <= |pkt| && pkt[pos..] == EncodeAll(ts) + rest
    ensures Elements(pkt, pos, handle, depth) == EventsAll(ts, handle, depth + 1)
    decreases ts
  {
    if ts == [] {
      NoElements(pkt, pos, rest, handle, depth);
    } else {
      var e, others := Encode(ts[0]), ts[1..];
      var next := pos + 4 + |e|;
      WalkTree(ts[0], handle, depth + 1);
      NextElement(pkt, pos, ts, rest, e, EncodeAll(others) + rest);
      WalkElements(pkt, next, others, rest, handle, depth);
      ElementThenRest(pkt, pos, e, next, ts, others, handle, depth);
    }
  }

  lemma NoElements(pkt: seq<byte>, pos: nat, rest: seq<byte>, handle: Handler, depth: nat)
    requires Unframed(rest) && 16 <= pos <= |pkt| && pkt[pos..] == EncodeAll([]) + rest
    ensures Elements(pkt, pos, handle, depth) == [] == EventsAll([], handle, depth + 1)
  {
    assert pkt[pos..] == rest;
    RestUnframed(pkt, pos, rest);
  }

  lemma ElementThenRest(pkt: seq<byte>, pos: nat, e: seq<byte>, next: nat, ts: seq<Tree>, others: seq<Tree>,
                        handle: Handler, depth: nat)
    requires 16 <= pos <= |pkt| && ElementAt(pkt, pos) == Some(Element(e, next)) && ts != [] && others == ts[1..]
    requires Walk(e, handle, depth + 1) == Events(ts[0], handle, depth + 1)
    requires Elements(pkt, next, handle, depth) == EventsAll(others, handle, depth + 1)
    ensures Elements(pkt, pos, handle, depth) == EventsAll(ts, handle, depth + 1)
  {
    ElementsNext(pkt, pos, Element(e, next), handle, depth);
    EventsAllNext(ts, handle, depth + 1);
  }

  lemma {:induction false} FirstElement(ts: seq<Tree>, rest: seq<byte>)
    requires ts != [] && |Encode(ts[0])| < 0x1_0000_0000
    ensures EncodeAll(ts) + rest == Be32(|Encode(ts[0])|) + Encode(ts[0]) + (EncodeAll(ts[1..]) + rest)
  {
    var e := Encode(ts[0]);
    assert EncodeAll(ts) == Be32(|e|) + e + EncodeAll(ts[1..]);
  }

  lemma {:induction false} NextElement(pkt: seq<byte>, pos: nat, ts: seq<Tree>, rest: seq<byte>, e: seq<byte>, tail: seq<byte>)
    requires ts != [] && e == Encode(ts[0]) && 0 < |e| < 0x1_0000_0000 && tail == EncodeAll(ts[1..]) + rest
    requires 16 <= pos <= |pkt| && pkt[pos..] == EncodeAll(ts) + rest
    ensures ElementAt(pkt, pos) == Some(Element(e, pos + 4 + |e|)) && pkt[pos + 4 + |e|..] == tail
  {
    FirstElement(ts, rest);
    ElementFramed(pkt, pos, e, tail);
  }

  lemma {:induction false} ElementFramed(pkt: seq<byte>, pos: nat, e: seq<byte>, rest: seq<byte>)
    requires 0 < |e| < 0x1_0000_0000 && 16 <= pos <= |pkt| && pkt[pos..] == Be32(|e|) + e + rest
    ensures ElementAt(pkt, pos) == Some(Element(e, pos + 4 + |e|)) && pkt[pos + 4 + |e|..] == rest
  {
    var head := Be32(|e|);
    assert |pkt| - pos == 4 + |e| + |rest|;
    assert pkt[pos..pos + |head + e + rest|] == head + e + rest;
    HoldsParts(pkt, pos, head + e, rest);
    HoldsParts(pkt, pos, head, e);
    Be32ReadsBack(pkt, pos, |e|);
    assert pkt[pos + 4 + |e|..] == pkt[pos + 4 + |e|..pos + 4 + |e| + |rest|];
  }

  lemma {:induction false} DispatchConcat(handle: Handler, a: seq<seq<byte>>, b: seq<seq<byte>>)
    ensures DispatchAll(handle, a + b) == DispatchAll(handle, a) + DispatchAll(handle, b)
  {
    if a == [] {
      assert a + b == b;
    } else {
      DispatchConcat(handle, a[1..], b);
      assert (a + b)[0] == a[0] && (a + b)[1..] == a[1..] + b;
      Associative(LeafEvents(a[0], handle), DispatchAll(handle, a[1..]), DispatchAll(handle, b));
    }
  }

  lemma Associative<T>(x: seq<T>, y: seq<T>, z: seq<T>)
    ensures x + (y + z) == (x + y) + z
  {
  }

  lemma {:induction false} ShallowEvents(t: Tree, handle: Handler, depth: nat)
    requires depth <= MAX_DEPTH && NestedAtMost(t, MAX_DEPTH - depth)
    ensures Events(t, handle, depth) == DispatchAll(handle, Leaves(t))
    decreases t
  {
    match t
    case Leaf(bytes) =>
      assert [bytes][1..] == [];
    case Bundle(_, elements, _) =>
      ShallowEventsAll(elements, handle, depth + 1);
  }

  lemma {:induction false} ShallowEventsAll(ts: seq<Tree>, handle: Handler, depth: nat)
    requires depth <= MAX_DEPTH && AllNestedAtMost(ts, MAX_DEPTH - depth)
    ensures EventsAll(ts, handle, depth) == DispatchAll(handle, LeavesAll(ts))
    decreases ts
  {
    if ts == [] {
    } else {
      ShallowEvents(ts[0], handle, depth);
      ShallowEventsAll(ts[1..], handle, depth);
      DispatchConcat(handle, Leaves(ts[0]), LeavesAll(ts[1..]));
    }
  }

  /** For every tree nested at most eight deep, whatever its leaves hold, the parser
      dispatches exactly what its leaves dispatch on their own, in order: a leaf
      that is not a message, or is not bound, is skipped and nothing else is. */
  lemma TreeDispatches(t: Tree, bindings: seq<Binding>)
    requires Proper(t) && NestedAtMost(t, 8)
    ensures Walk(Encode(t), Handling(bindings), 0) == DispatchAll(Handling(bindings), Leaves(t))
  {
    WalkTree(t, Handling(bindings), 0);
    ShallowEvents(t, Handling(bindings), 0);
  }

  // ---- every packet is a tree --------------------------------------------

  function TreeOf(pkt: seq<byte>): Tree
    decreases |pkt|, |pkt| + 1
  {
    if OpensNoBundle(pkt) then Leaf(pkt)
    else Bundle(pkt[8..16], TreesFrom(pkt, 16), pkt[RestFrom(pkt, 16)..])
  }

  /** The framed elements from `pos` on ... */
  function TreesFrom(pkt: seq<byte>, pos: nat): seq<Tree>
    requires 16 <= pos <= |pkt|
    decreases |pkt|, |pkt| - pos
  {
    match ElementAt(pkt, pos)
    case None => []
    case Some(e) => [TreeOf(e.bytes)] + TreesFrom(pkt, e.next)
  }

  /** ... and where they end. */
  function RestFrom(pkt: seq<byte>, pos: nat): (end: nat)
    requires 16 <= pos <= |pkt|
    ensures pos <= end <= |pkt|
    decreases |pkt| - pos
  {
    match ElementAt(pkt, pos)
    case None => pos
    case Some(e) => RestFrom(pkt, e.next)
  }

  lemma Digits(v: nat, a: byte, b: byte, c: byte, d: byte)
    requires v == 16777216 * (a as int) + 65536 * (b as int) + 256 * (c as int) + d as int
    ensures v / 16777216 == a as int && v / 65536 == 256 * (a as int) + b as int
    ensures v / 256 == 65536 * (a as int) + 256 * (b as int) + c as int && v % 256 == d as int
  {
  }

  lemma LowDigit(q: nat, high: nat, low: byte)
    requires q == 256 * high + low as int
    ensures q % 256 == low as int
  {
  }

  lemma Be32Back(pkt: seq<byte>, off: nat)
    requires off + 4 <= |pkt|
    ensures Be32(Be32At(pkt, off)) == pkt[off..off + 4]
  {
    var v := Be32At(pkt, off);
    var a, b, c, d := pkt[off], pkt[off + 1], pkt[off + 2], pkt[off + 3];
    Digits(v, a, b, c, d);
    LowDigit(v / 65536, a, b);
    LowDigit(v / 256, 256 * (a as int) + b as int, c);
    assert Be32(v) == [a, b, c, d];
  }

  lemma {:induction false} PacketIsTree(pkt: seq<byte>)
    requires pkt != []
    ensures Proper(TreeOf(pkt)) && Encode(TreeOf(pkt)) == pkt
    decreases |pkt|, |pkt| + 1
  {
    if OpensNoBundle(pkt) {
    } else {
      ElementsAreTrees(pkt, 16);
      BundleRejoined(pkt, pkt[16..]);
    }
  }

  lemma BundleRejoined(pkt: seq<byte>, body: seq<byte>)
    requires IsBundle(pkt) && |pkt| >= 16 && body == pkt[16..]
    ensures MARKER + pkt[8..16] + body == pkt
  {
    assert pkt == pkt[..8] + pkt[8..16] + pkt[16..];
  }

  lemma {:induction false} ElementsAreTrees(pkt: seq<byte>, pos: nat)
    requires 16 <= pos <= |pkt|
    ensures ProperAll(TreesFrom(pkt, pos)) && Unframed(pkt[RestFrom(pkt, pos)..])
    ensures EncodeAll(TreesFrom(pkt, pos)) + pkt[RestFrom(pkt, pos)..] == pkt[pos..]
    decreases |pkt|, |pkt| - pos
  {
    match ElementAt(pkt, pos)
    case None =>
      UnframedHere(pkt, pos);
    case Some(e) =>
      PacketIsTree(e.bytes);
      ElementsAreTrees(pkt, e.next);
      ElementRejoined(pkt, pos, e);
      FirstTree(TreesFrom(pkt, pos), TreeOf(e.bytes), TreesFrom(pkt, e.next), e.bytes);
      var head, rest := Be32(|e.bytes|) + e.bytes, pkt[RestFrom(pkt, pos)..];
      Associative(head, EncodeAll(TreesFrom(pkt, e.next)), rest);
  }

  lemma UnframedHere(pkt: seq<byte>, pos: nat)
    requires 16 <= pos <= |pkt| && ElementAt(pkt, pos) == None
    ensures Unframed(pkt[pos..])
  {
    if pos + 4 <= |pkt| {
      var rest := pkt[pos..];
      assert pkt[pos] == rest[0] && pkt[pos + 1] == rest[1] && pkt[pos + 2] == rest[2] && pkt[pos + 3] == rest[3];
    }
  }

  lemma ElementRejoined(pkt: seq<byte>, pos: nat, e: Element)
    requires 16 <= pos <= |pkt| && ElementAt(pkt, pos) == Some(e)
    ensures |e.bytes| < 0x1_0000_0000 && Be32(|e.bytes|) + e.bytes + pkt[e.next..] == pkt[pos..]
  {
    Be32Back(pkt, pos);
    assert pkt[pos..] == pkt[pos..pos + 4] + pkt[pos + 4..e.next] + pkt[e.next..];
  }

  lemma EncodeAllNext(ts: seq<Tree>)
    requires ts != []
    ensures EncodeAll(ts)
            == Be32(|Encode(ts[0])| % 0x1_0000_0000) + Encode(ts[0]) + EncodeAll(ts[1..])
  {
  }

  lemma {:induction false} FirstTree(ts: seq<Tree>, t: Tree, rest: seq<Tree>, bytes: seq<byte>)
    requires ts == [t] + rest && Encode(t) == bytes && |bytes| < 0x1_0000_0000 && Proper(t) && ProperAll(rest)
    ensures ProperAll(ts) && EncodeAll(ts) == Be32(|bytes|) + bytes + EncodeAll(rest)
  {
    assert ts[0] == t && ts[1..] == rest;
    EncodeAllNext(ts);
  }

  /** So the trees are all the packets there are: for any bytes at all, the walk
      dispatches the events of the packet's tree. */
  lemma AnyPacketDispatches(pkt: seq<byte>, bindings: seq<Binding>)
    requires pkt != []
    ensures Proper(TreeOf(pkt)) && Encode(TreeOf(pkt)) == pkt
    ensures Walk(pkt, Handling(bindings), 0) == Events(TreeOf(pkt), Handling(bindings), 0)
  {
    PacketIsTree(pkt);
    WalkTree(TreeOf(pkt), Handling(bindings), 0);
  }

  // ---- the program -------------------------------------------------------

  lemma CStringIs(pkt: seq<byte>, start: nat, i: nat)
    requires start <= i <= |pkt| && (forall k :: start <= k < i ==> pkt[k] != 0)
    requires i == |pkt| || pkt[i] == 0
    ensures CStringAt(pkt, start) == pkt[start..i]
  {
    var s := CStringAt(pkt, start);
    assert forall k :: 0 <= k < |s| ==> pkt[start + k] == s[k];
    assert start + |s| == i;
  }

  method ReadOscString(pkt: seq<byte>, start: nat) returns (r: Option<Text>)
    ensures r == OscString(pkt, start)
  {
    if start >= |pkt| { return None; }
    var i := start;
    while i < |pkt| && pkt[i] != 0
      invariant start <= i <= |pkt| && forall k :: start <= k < i ==> pkt[k] != 0
    {
      i := i + 1;
    }
    CStringIs(pkt, start, i);
    if i >= |pkt| { return None; }
    var afterNul := i + 1;
    var aligned := (afterNul + 3) / 4 * 4;
    if aligned > |pkt| { return None; }
    for p := afterNul to aligned
      invariant forall k :: afterNul <= k < p ==> pkt[k] == 0
    {
      if pkt[p] != 0 { return None; }
    }
    r := Some(Text(i - start, aligned));
  }

  method ParseOsc(pkt: seq<byte>, bindings: seq<Binding>) returns (r: Option<Event>)
    ensures r == match MessageIn(pkt)
                 case None => None
                 case Some(m) => if Lookup(bindings, m.address).None? then None
                                 else Some(EventFor(Lookup(bindings, m.address).value, m.arg))
  {
    if |pkt| == 0 { return None; }
    var addr := ReadOscString(pkt, 0);
    if addr.None? { return None; }
    if addr.value.len == 0 || pkt[0] != SLASH { return None; }
    var tag := ReadOscString(pkt, addr.value.end);
    if tag.None? { return None; }
    var at := addr.value.end;
    if tag.value.len != 2 || pkt[at] != COMMA { return None; }
    var typeChar := pkt[at + 1];
    if typeChar != FLOAT_TAG && typeChar != INT_TAG { return None; }
    if tag.value.end + 4 > |pkt| { return None; }
    var raw := Be32At(pkt, tag.value.end);
    var arg := if typeChar == FLOAT_TAG then FloatArg(raw) else IntArg(raw);
    var b := FindBinding(bindings, pkt[..addr.value.len]);
    if b.None? { return None; }
    if b.value.kind == Button {
      r := Some(Event(Button, b.value.id, NonZero(arg), NO_VALUE));
    } else {
      r := Some(Event(b.value.kind, b.value.id, false, arg));
    }
  }

  method FindBinding(bindings: seq<Binding>, address: seq<byte>) returns (r: Option<Binding>)
    ensures r == Lookup(bindings, address)
  {
    for i := 0 to |bindings|
      invariant Lookup(bindings[i..], address) == Lookup(bindings, address)
    {
      assert bindings[i..][1..] == bindings[i + 1..];
      if bindings[i].address == address { return Some(bindings[i]); }
    }
    return None;
  }

  /** The recursive walker; events are collected in the order of the callbacks. */
  method ParsePacketRec(pkt: seq<byte>, bindings: seq<Binding>, depth: nat) returns (events: seq<Event>, dispatched: nat)
    ensures events == Walk(pkt, Handling(bindings), depth) && dispatched == |events|
    decreases |pkt|, 1
  {
    if |pkt| == 0 { return [], 0; }
    if !(|pkt| >= 8 && pkt[..8] == MARKER) {
      var ev := ParseOsc(pkt, bindings);
      assert Handling(bindings)(pkt) == PacketEvents(pkt, bindings);
      if ev.None? { return [], 0; }
      return [ev.value], 1;
    }
    if depth >= MAX_DEPTH { return [], 0; }
    if |pkt| < 16 { return [], 0; }
    events, dispatched := ParseElements(pkt, bindings, depth, Handling(bindings));
  }

  /** The loop over a bundle's elements. */
  method ParseElements(pkt: seq<byte>, bindings: seq<Binding>, depth: nat, ghost handle: Handler)
      returns (events: seq<Event>, dispatched: nat)
    requires |pkt| >= 16 && handle == Handling(bindings)
    ensures events == Elements(pkt, 16, handle, depth) && dispatched == |events|
    decreases |pkt|, 0
  {
    events, dispatched := [], 0;
    var pos := 16;
    while true
      invariant 16 <= pos <= |pkt| && dispatched == |events|
      invariant events + Elements(pkt, pos, handle, depth) == Elements(pkt, 16, handle, depth)
      decreases |pkt| - pos
    {
      var e := ReadElement(pkt, pos);
      if e.None? { break; }
      var more, n := ParsePacketRec(e.value.bytes, bindings, depth + 1);
      Associative(events, more, Elements(pkt, e.value.next, handle, depth));
      events, dispatched := events + more, dispatched + n;
      pos := e.value.next;
    }
  }

  /** The size prefix and the bytes it announces. */
  method ReadElement(pkt: seq<byte>, pos: nat) returns (r: Option<Element>)
    requires 16 <= pos <= |pkt|
    ensures r == ElementAt(pkt, pos)
  {
    if pos + 4 > |pkt| { return None; }
    var elemSize := Be32At(pkt, pos);
    var start := pos + 4;
    if elemSize == 0 || start + elemSize > |pkt| { return None; }
    r := Some(Element(pkt[start..start + elemSize], start + elemSize));
  }

  method ParseOscPacket(pkt: seq<byte>, bindings: seq<Binding>) returns (events: seq<Event>, dispatched: nat)
    ensures events == Walk(pkt, Handling(bindings), 0) && dispatched == |events|
  {
    events, dispatched := ParsePacketRec(pkt, bindings, 0);
  }
}
