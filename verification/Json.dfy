/** The JSON string handling of web_protocol.cpp: the printer behind buildScriptJson
    and the escape-decoding string parser (section 7 of RFC 8259). */
module Json {
  import opened Bytes

  const QUOTE: byte := 0x22
  const BACKSLASH: byte := 0x5C

  /** The bytes of an ASCII literal. */
  function Ascii(s: string): (b: seq<byte>)
    requires forall i :: 0 <= i < |s| ==> s[i] < 128 as char
    ensures |b| == |s|
  {
    seq(|s|, i requires 0 <= i < |s| => s[i] as int)
  }

  const HEAD: seq<byte> := Ascii("{\"type\":\"script\",\"name\":")
  const SRC_KEY: seq<byte> := Ascii(",\"src\":")

  // ---- printing ----------------------------------------------------------

  function HexDigit(n: nat): (h: byte)
    requires n < 16
    ensures DigitValue(h) == Some(n)
  {
    if n < 10 then 0x30 + n else 0x61 + (n - 10)
  }

  function UnicodeEscape(b: byte): (e: seq<byte>)
    ensures |e| == 6
  {
    [BACKSLASH, 0x75, 0x30, 0x30, HexDigit(b / 16), HexDigit(b % 16)]
  }

  /** A byte of free text as it is printed. */
  function Escaped(b: byte): (e: seq<byte>)
    ensures e != [] && e[0] != QUOTE
  {
    if b == QUOTE || b == BACKSLASH then [BACKSLASH, b]
    else if b == 0x0A then [BACKSLASH, 0x6E]
    else if b == 0x0D then [BACKSLASH, 0x72]
    else if b == 0x09 then [BACKSLASH, 0x74]
    else if b < 0x20 then UnicodeEscape(b)
    else [b]
  }

  /** A byte of a label as it is printed. */
  function EscapedLabel(b: byte): (e: seq<byte>)
    ensures e != [] && e[0] != QUOTE
  {
    if b == QUOTE || b == BACKSLASH then [BACKSLASH, b] else if b < 0x20 then UnicodeEscape(b) else [b]
  }

  function Units(src: seq<byte>): (us: seq<seq<byte>>)
    ensures |us| == |src|
  {
    seq(|src|, i requires 0 <= i < |src| => Escaped(src[i]))
  }

  function LabelUnits(name: seq<byte>): (us: seq<seq<byte>>)
    ensures |us| == |name|
  {
    seq(|name|, i requires 0 <= i < |name| => EscapedLabel(name[i]))
  }

  function Body(src: seq<byte>): seq<byte> {
    Flat(Units(src))
  }

  function Literal(name: seq<byte>): seq<byte> {
    [QUOTE] + Flat(LabelUnits(name)) + [QUOTE]
  }

  /** The whole message. */
  function ScriptJson(name: seq<byte>, src: seq<byte>): seq<byte> {
    HEAD + Literal(name) + SRC_KEY + [QUOTE] + Body(src) + [QUOTE] + [0x7D]
  }

  /** Where the source text's literal opens in it. */
  function SourceAt(name: seq<byte>): nat {
    |HEAD| + |Literal(name)| + |SRC_KEY|
  }

  // ---- decoding ----------------------------------------------------------

  function DigitValue(h: byte): (r: Option<nat>)
    ensures r.Some? ==> r.value < 16
  {
    if 0x30 <= h <= 0x39 then Some(h as int - 0x30)
    else if 0x61 <= h <= 0x66 then Some(10 + h as int - 0x61)
    else if 0x41 <= h <= 0x46 then Some(10 + h as int - 0x41)
    else None
  }

  /** The code point of four hex digits. */
  function CodePoint(json: seq<byte>, p: nat): (r: Option<nat>)
    requires p + 4 <= |json|
    ensures r.Some? ==> r.value < 0x1_0000
  {
    match DigitValue(json[p])
    case None => None
    case Some(a) =>
      match DigitValue(json[p + 1])
      case None => None
      case Some(b) =>
        match DigitValue(json[p + 2])
        case None => None
        case Some(c) =>
          match DigitValue(json[p + 3])
          case None => None
          case Some(d) => Some(((a * 16 + b) * 16 + c) * 16 + d)
  }

  function Utf8(cp: nat): (u: seq<byte>)
    requires cp < 0x1_0000
  {
    if cp < 0x80 then [cp]
    else if cp < 0x800 then [0xC0 + cp / 64, 0x80 + cp % 64]
    else [0xE0 + cp / 4096, 0x80 + cp / 64 % 64, 0x80 + cp % 64]
  }

  datatype Piece = Piece(bytes: seq<byte>, next: nat)

  function SimpleEscape(c: byte): Option<byte> {
    if c == QUOTE || c == BACKSLASH || c == 0x2F then Some(c)
    else if c == 0x62 then Some(0x08)
    else if c == 0x66 then Some(0x0C)
    else if c == 0x6E then Some(0x0A)
    else if c == 0x72 then Some(0x0D)
    else if c == 0x74 then Some(0x09)
    else None
  }

  /** One character or escape inside a literal. */
  function UnitAt(json: seq<byte>, p: nat): (r: Option<Piece>)
    requires p < |json|
    ensures r.Some? ==> p < r.value.next <= |json|
  {
    var c := json[p];
    if c < 0x20 then None
    else if c != BACKSLASH then Some(Piece([c], p + 1))
    else if p + 1 >= |json| then None
    else if json[p + 1] != 0x75 then
      match SimpleEscape(json[p + 1])
      case None => None
      case Some(b) => Some(Piece([b], p + 2))
    else if p + 6 > |json| then None
    else
      match CodePoint(json, p + 2)
      case None => None
      case Some(cp) => Some(Piece(Utf8(cp), p + 6))
  }

  function Prepend(bytes: seq<byte>, r: Option<Piece>): Option<Piece> {
    match r
    case None => None
    case Some(rest) => Some(Piece(bytes + rest.bytes, rest.next))
  }

  /** What a literal decodes to from `p`, just inside it, up to its closing quote. */
  function Decoded(json: seq<byte>, p: nat): Option<Piece>
    decreases |json| - p
  {
    if p >= |json| then None
    else if json[p] == QUOTE then Some(Piece([], p + 1))
    else
      match UnitAt(json, p)
      case None => None
      case Some(u) => Prepend(u.bytes, Decoded(json, u.next))
  }

  function SkipWs(json: seq<byte>, p: nat): (q: nat)
    requires p <= |json|
    ensures p <= q <= |json|
    decreases |json| - p
  {
    if p < |json| && (json[p] == 0x20 || json[p] == 0x09 || json[p] == 0x0A || json[p] == 0x0D)
    then SkipWs(json, p + 1) else p
  }

  /** The literal that follows any white space. */
  function StringAt(json: seq<byte>, p: nat): Option<Piece>
    requires p <= |json|
  {
    var q := SkipWs(json, p);
    if q >= |json| || json[q] != QUOTE then None else Decoded(json, q + 1)
  }

  // ---- round trip --------------------------------------------------------

  lemma UnitReadsBack(json: seq<byte>, p: nat, b: byte)
    requires Holds(json, p, Escaped(b))
    ensures UnitAt(json, p) == Some(Piece([b], p + |Escaped(b)|)) && json[p] != QUOTE
  {
    HoldsByte(json, p, Escaped(b), 0);
    if |Escaped(b)| == 6 {
      UnicodeReadsBack(json, p, b);
    } else if |Escaped(b)| == 2 {
      HoldsByte(json, p, Escaped(b), 1);
    }
  }

  lemma UnicodeReadsBack(json: seq<byte>, p: nat, b: byte)
    requires b < 0x20 && Holds(json, p, UnicodeEscape(b))
    ensures json[p + 1] == 0x75 && CodePoint(json, p + 2) == Some(b as int)
  {
    HoldsByte(json, p, UnicodeEscape(b), 1);
    HoldsByte(json, p, UnicodeEscape(b), 2);
    HoldsByte(json, p, UnicodeEscape(b), 3);
    HoldsByte(json, p, UnicodeEscape(b), 4);
    HoldsByte(json, p, UnicodeEscape(b), 5);
  }

  lemma BodyFirst(src: seq<byte>)
    requires src != []
    ensures Body(src) == Escaped(src[0]) + Body(src[1..])
  {
    FirstPart(Units(src));
    assert Units(src)[1..] == Units(src[1..]);
  }

  lemma FirstHeld(json: seq<byte>, p: nat, src: seq<byte>)
    requires src != [] && Holds(json, p, Body(src) + [QUOTE])
    ensures Holds(json, p, Escaped(src[0])) && Holds(json, p + |Escaped(src[0])|, Body(src[1..]) + [QUOTE])
    ensures |Body(src)| == |Escaped(src[0])| + |Body(src[1..])|
  {
    BodyFirst(src);
    assert Body(src) + [QUOTE] == Escaped(src[0]) + (Body(src[1..]) + [QUOTE]);
    HoldsParts(json, p, Escaped(src[0]), Body(src[1..]) + [QUOTE]);
  }

  lemma OneUnit(json: seq<byte>, p: nat, b: byte, src: seq<byte>, next: nat, end: nat)
    requires p < |json| && json[p] != QUOTE && UnitAt(json, p) == Some(Piece([b], next))
    requires Decoded(json, next) == Some(Piece(src, end))
    ensures Decoded(json, p) == Some(Piece([b] + src, end))
  {
  }

  lemma UnitThenRest(json: seq<byte>, p: nat, src: seq<byte>, next: nat, end: nat)
    requires src != [] && Holds(json, p, Escaped(src[0])) && next == p + |Escaped(src[0])|
    requires Decoded(json, next) == Some(Piece(src[1..], end))
    ensures Decoded(json, p) == Some(Piece(src, end))
  {
    UnitReadsBack(json, p, src[0]);
    OneUnit(json, p, src[0], src[1..], next, end);
    assert [src[0]] + src[1..] == src;
  }

  lemma EmptyBody(json: seq<byte>, p: nat)
    requires Holds(json, p, Body([]) + [QUOTE])
    ensures Decoded(json, p) == Some(Piece([], p + 1))
  {
    HoldsByte(json, p, Body([]) + [QUOTE], 0);
  }

  /** Every byte string printed as a literal decodes to itself, wherever it stands
      and whatever follows. */
  lemma {:induction false} RoundTrip(json: seq<byte>, p: nat, src: seq<byte>, end: nat)
    requires Holds(json, p, Body(src) + [QUOTE]) && end == p + |Body(src)| + 1
    ensures Decoded(json, p) == Some(Piece(src, end))
    decreases |src|
  {
    if src == [] {
      EmptyBody(json, p);
    } else {
      var next := p + |Escaped(src[0])|;
      FirstHeld(json, p, src);
      RoundTrip(json, next, src[1..], end);
      UnitThenRest(json, p, src, next, end);
    }
  }

  /** The source literal of a printed message decodes to exactly the source. */
  lemma ScriptRoundTrip(name: seq<byte>, src: seq<byte>)
    ensures var json := ScriptJson(name, src);
            SourceAt(name) <= |json| &&
            StringAt(json, SourceAt(name)) == Some(Piece(src, |json| - 1))
  {
    var json, at, end := ScriptJson(name, src), SourceAt(name), |ScriptJson(name, src)| - 1;
    LiteralInside(HEAD + Literal(name) + SRC_KEY, Body(src) + [QUOTE], json, at);
    LiteralReadsBack(json, at, src, end);
  }

  lemma LiteralReadsBack(json: seq<byte>, at: nat, src: seq<byte>, end: nat)
    requires at < |json| && json[at] == QUOTE && Holds(json, at + 1, Body(src) + [QUOTE])
    requires end == at + 1 + |Body(src)| + 1
    ensures StringAt(json, at) == Some(Piece(src, end))
  {
    RoundTrip(json, at + 1, src, end);
    OpensHere(json, at);
  }

  lemma OpensHere(json: seq<byte>, at: nat)
    requires at < |json| && json[at] == QUOTE
    ensures StringAt(json, at) == Decoded(json, at + 1)
  {
  }

  lemma LiteralInside(front: seq<byte>, literal: seq<byte>, json: seq<byte>, at: nat)
    requires json == front + [QUOTE] + literal + [0x7D] && at == |front|
    ensures at < |json| && json[at] == QUOTE && Holds(json, at + 1, literal)
  {
  }

  // ---- the printer -------------------------------------------------------

  /** The buffer holds the output so far, as far as it fits before its last byte. */
  ghost predicate Shows(buf: array<byte>, out: seq<byte>)
    reads buf
  {
    forall k :: 0 <= k < |out| && k + 1 < buf.Length ==> buf[k] == out[k]
  }

  method AppendChar(buf: array<byte>, written: nat, c: byte, ghost out: seq<byte>) returns (w: nat)
    requires Shows(buf, out) && written == |out|
    modifies buf
    ensures Shows(buf, out + [c]) && w == written + 1
  {
    if written + 1 < buf.Length {
      buf[written] := c;
    }
    w := written + 1;
  }

  method AppendRaw(buf: array<byte>, written: nat, s: seq<byte>, ghost out: seq<byte>) returns (w: nat)
    requires Shows(buf, out) && written == |out|
    modifies buf
    ensures Shows(buf, out + s) && w == written + |s|
  {
    if written + 1 < buf.Length {
      var avail := buf.Length - 1 - written;
      var copy := if |s| < avail then |s| else avail;
      for i := 0 to copy
        invariant forall k :: 0 <= k < |out| && k + 1 < buf.Length ==> buf[k] == out[k]
        invariant forall k :: 0 <= k < i ==> buf[written + k] == s[k]
      {
        buf[written + i] := s[i];
      }
    }
    w := written + |s|;
  }

  /** The terminator: after the output, or on the last byte when it does not fit. */
  method Terminate(buf: array<byte>, written: nat, ghost out: seq<byte>)
    requires Shows(buf, out) && written == |out|
    modifies buf
    ensures buf.Length > 0 ==>
              var n := Least(|out|, buf.Length - 1);
              buf[..n] == out[..n] && buf[n] == 0
  {
    if buf.Length > 0 {
      var termPos := if written < buf.Length then written else buf.Length - 1;
      buf[termPos] := 0;
    }
  }

  method AppendLabel(buf: array<byte>, written: nat, s: seq<byte>, ghost out: seq<byte>) returns (w: nat)
    requires Shows(buf, out) && written == |out|
    modifies buf
    ensures Shows(buf, out + Literal(s)) && w == written + |Literal(s)|
  {
    w := AppendChar(buf, written, QUOTE, out);
    w := AppendLabelUnits(buf, w, s, out + [QUOTE]);
    w := AppendChar(buf, w, QUOTE, out + [QUOTE] + Flat(LabelUnits(s)));
    assert out + [QUOTE] + Flat(LabelUnits(s)) + [QUOTE] == out + Literal(s);
  }

  method AppendLabelUnits(buf: array<byte>, written: nat, s: seq<byte>, ghost out: seq<byte>) returns (w: nat)
    requires Shows(buf, out) && written == |out|
    modifies buf
    ensures Shows(buf, out + Flat(LabelUnits(s))) && w == |out + Flat(LabelUnits(s))|
  {
    w := written;
    ghost var soFar := out;
    for i := 0 to |s|
      invariant soFar == out + Flat(LabelUnits(s)[..i]) && Shows(buf, soFar) && w == |soFar|
    {
      FlatPush(LabelUnits(s), i);
      w := AppendEscapedLabel(buf, w, s[i], soFar);
      soFar := soFar + EscapedLabel(s[i]);
    }
    assert LabelUnits(s)[..|s|] == LabelUnits(s);
  }

  method AppendEscapedLabel(buf: array<byte>, written: nat, c: byte, ghost out: seq<byte>) returns (w: nat)
    requires Shows(buf, out) && written == |out|
    modifies buf
    ensures Shows(buf, out + EscapedLabel(c)) && w == written + |EscapedLabel(c)|
  {
    if c == QUOTE || c == BACKSLASH {
      w := AppendChar(buf, written, BACKSLASH, out);
      w := AppendChar(buf, w, c, out + [BACKSLASH]);
      assert out + [BACKSLASH] + [c] == out + EscapedLabel(c);
    } else if c < 0x20 {
      w := AppendRaw(buf, written, UnicodeEscape(c), out);
    } else {
      w := AppendChar(buf, written, c, out);
    }
  }

  method AppendEscaped(buf: array<byte>, written: nat, c: byte, ghost out: seq<byte>) returns (w: nat)
    requires Shows(buf, out) && written == |out|
    modifies buf
    ensures Shows(buf, out + Escaped(c)) && w == written + |Escaped(c)|
  {
    if c == QUOTE || c == BACKSLASH {
      w := AppendChar(buf, written, BACKSLASH, out);
      w := AppendChar(buf, w, c, out + [BACKSLASH]);
      assert out + [BACKSLASH] + [c] == out + Escaped(c);
    } else if c == 0x0A {
      w := AppendRaw(buf, written, [BACKSLASH, 0x6E], out);
    } else if c == 0x0D {
      w := AppendRaw(buf, written, [BACKSLASH, 0x72], out);
    } else if c == 0x09 {
      w := AppendRaw(buf, written, [BACKSLASH, 0x74], out);
    } else if c < 0x20 {
      w := AppendRaw(buf, written, UnicodeEscape(c), out);
    } else {
      w := AppendChar(buf, written, c, out);
    }
  }

  method AppendSource(buf: array<byte>, written: nat, src: seq<byte>, ghost out: seq<byte>) returns (w: nat)
    requires Shows(buf, out) && written == |out|
    modifies buf
    ensures Shows(buf, out + Body(src)) && w == written + |Body(src)|
  {
    w := written;
    ghost var soFar := out;
    for i := 0 to |src|
      invariant soFar == out + Flat(Units(src)[..i]) && Shows(buf, soFar) && w == |soFar|
    {
      FlatPush(Units(src), i);
      w := AppendEscaped(buf, w, src[i], soFar);
      soFar := soFar + Escaped(src[i]);
    }
    assert Units(src)[..|src|] == Units(src);
  }

  /** Returns the full length; the buffer gets a NUL-terminated prefix of the full
      output, all of it exactly when there is room for it and the NUL. */
  method BuildScriptJson(name: seq<byte>, src: seq<byte>, buf: array<byte>) returns (w: nat)
    modifies buf
    ensures w == |ScriptJson(name, src)|
    ensures buf.Length > 0 ==>
              var n := Least(w, buf.Length - 1);
              buf[..n] == ScriptJson(name, src)[..n] && buf[n] == 0
  {
    ghost var out: seq<byte> := [];
    w := AppendRaw(buf, 0, HEAD, out);
    out := HEAD;
    w := AppendLabel(buf, w, name, out);
    out := out + Literal(name);
    w := AppendRaw(buf, w, SRC_KEY, out);
    out := out + SRC_KEY;
    w := AppendChar(buf, w, QUOTE, out);
    out := out + [QUOTE];
    w := AppendSource(buf, w, src, out);
    out := out + Body(src);
    w := AppendChar(buf, w, QUOTE, out);
    out := out + [QUOTE];
    w := AppendChar(buf, w, 0x7D, out);
    out := out + [0x7D];
    Terminate(buf, w, out);
  }

  // ---- the parser --------------------------------------------------------

  class Parser {
    const json: seq<byte>
    var p: nat

    constructor (json: seq<byte>)
      ensures this.json == json && p == 0
    {
      this.json, p := json, 0;
    }

    method SkipSpace()
      requires p <= |json|
      modifies this
      ensures p == SkipWs(json, old(p))
    {
      while p < |json| && (json[p] == 0x20 || json[p] == 0x09 || json[p] == 0x0A || json[p] == 0x0D)
        invariant p <= |json| && SkipWs(json, p) == SkipWs(json, old(p))
      {
        p := p + 1;
      }
    }

    /** The four digits after `\u`, from the current position. */
    method FourHex() returns (r: Option<nat>)
      requires p + 4 <= |json|
      ensures r == CodePoint(json, p)
    {
      var cp := 0;
      ghost var digits: seq<nat> := [];
      for i := 0 to 4
        invariant |digits| == i && forall k :: 0 <= k < i ==> DigitValue(json[p + k]) == Some(digits[k])
        invariant i == 0 ==> cp == 0
        invariant i == 1 ==> cp == digits[0]
        invariant i == 2 ==> cp == digits[0] * 16 + digits[1]
        invariant i == 3 ==> cp == (digits[0] * 16 + digits[1]) * 16 + digits[2]
        invariant i == 4 ==> cp == ((digits[0] * 16 + digits[1]) * 16 + digits[2]) * 16 + digits[3]
      {
        var digit := DigitValue(json[p + i]);
        if digit.None? { return None; }
        cp := cp * 16 + digit.value;
        digits := digits + [digit.value];
      }
      r := Some(cp);
    }

    /** One character or escape; the position moves past it. */
    method Unit() returns (r: Option<seq<byte>>)
      requires p < |json|
      modifies this
      ensures match UnitAt(json, old(p))
              case None => r.None?
              case Some(u) => r == Some(u.bytes) && p == u.next
    {
      var c := json[p];
      if c < 0x20 { return None; }
      if c != BACKSLASH {
        p := p + 1;
        return Some([c]);
      }
      p := p + 1;
      if p >= |json| { return None; }
      var esc := json[p];
      if esc != 0x75 {
        var b := SimpleEscape(esc);
        if b.None? { return None; }
        p := p + 1;
        return Some([b.value]);
      }
      p := p + 1;
      if |json| - p < 4 { return None; }
      var cp := FourHex();
      if cp.None? { return None; }
      p := p + 4;
      return Some(Utf8(cp.value));
    }

    /** Decodes a literal into `outBuf`. A result that overflows it is refused; one
        that fills it exactly loses its last byte to the terminator. */
    method ParseStringEscaped(outBuf: array<byte>) returns (r: Option<nat>)
      requires p <= |json|
      modifies this, outBuf
      ensures match StringAt(json, old(p))
              case None => r.None?
              case Some(d) =>
                if |d.bytes| > outBuf.Length then r.None?
                else r == Some(|d.bytes|) && p == d.next && Stored(outBuf, d.bytes)
    {
      SkipSpace();
      if p >= |json| || json[p] != QUOTE { return None; }
      p := p + 1;
      ghost var start := p;
      ghost var out: seq<byte> := [];
      var w := 0;
      PrependNothing(Decoded(json, p));
      while p < |json| && json[p] != QUOTE
        invariant start <= p <= |json| && w == |out|
        invariant forall k :: 0 <= k < |out| && k < outBuf.Length ==> outBuf[k] == out[k]
        invariant Decoded(json, start) == Prepend(out, Decoded(json, p))
        decreases |json| - p
      {
        ghost var at := p;
        var unit := Unit();
        if unit.None? { return None; }
        w := Put(outBuf, w, unit.value, out);
        PrependTwice(out, unit.value, Decoded(json, p));
        out := out + unit.value;
      }
      if p >= |json| { return None; }
      p := p + 1;
      if w > outBuf.Length { return None; }
      r := Some(w);
      if outBuf.Length > 0 {
        var termPos := if w < outBuf.Length then w else outBuf.Length - 1;
        outBuf[termPos] := 0;
      }
    }
  }

  /** `put` for each byte of a unit. */
  method Put(outBuf: array<byte>, written: nat, bytes: seq<byte>, ghost out: seq<byte>) returns (w: nat)
    requires written == |out| && forall k :: 0 <= k < |out| && k < outBuf.Length ==> outBuf[k] == out[k]
    modifies outBuf
    ensures w == |out + bytes|
    ensures forall k :: 0 <= k < |out + bytes| && k < outBuf.Length ==> outBuf[k] == (out + bytes)[k]
  {
    w := written;
    for i := 0 to |bytes|
      invariant w == written + i
      invariant forall k :: 0 <= k < written + i && k < outBuf.Length ==> outBuf[k] == (out + bytes)[k]
    {
      if w < outBuf.Length { outBuf[w] := bytes[i]; }
      w := w + 1;
    }
  }

  lemma PrependNothing(r: Option<Piece>)
    ensures Prepend([], r) == r
  {
    if r.Some? { assert [] + r.value.bytes == r.value.bytes; }
  }

  lemma PrependTwice(a: seq<byte>, b: seq<byte>, r: Option<Piece>)
    ensures Prepend(a, Prepend(b, r)) == Prepend(a + b, r)
  {
    if r.Some? { assert a + (b + r.value.bytes) == (a + b) + r.value.bytes; }
  }

  /** What the buffer holds once `d` has been decoded into it. */
  ghost predicate Stored(buf: array<byte>, d: seq<byte>)
    requires |d| <= buf.Length
    reads buf
  {
    if |d| < buf.Length then buf[..|d|] == d && buf[|d|] == 0
    else d == [] || (buf[..|d| - 1] == d[..|d| - 1] && buf[|d| - 1] == 0)
  }

  /** The decoded bytes are all there if and only if a byte was to spare, or nothing
      was decoded, or the byte given up to the terminator was itself a NUL. */
  lemma StoredWhole(buf: array<byte>, d: seq<byte>)
    requires |d| <= buf.Length && Stored(buf, d)
    ensures buf[..|d|] == d <==> |d| < buf.Length || d == [] || d[|d| - 1] == 0
  {
    if |d| == buf.Length && d != [] {
      var n := |d| - 1;
      assert buf[..|d|] == buf[..n] + [buf[n]] && d == d[..n] + [d[n]];
    }
  }

  /** The one-character literal "a" decodes to one byte; a one-byte buffer takes it
      and is left holding the terminator. */
  lemma OneCharacterLost(buf: array<byte>)
    requires buf.Length == 1 && Stored(buf, [0x61])
    ensures StringAt([QUOTE, 0x61, QUOTE], 0) == Some(Piece([0x61], 3))
    ensures buf[..1] == [0]
  {
    var json := [QUOTE, 0x61, QUOTE];
    assert UnitAt(json, 1) == Some(Piece([0x61], 2));
    assert Decoded(json, 2) == Some(Piece([], 3));
    OneUnit(json, 1, 0x61, [], 2, 3);
    assert [0x61] + [] == [0x61];
  }
}
