/** What the string handling of web_protocol.cpp reads and writes, in the terms of
    RFC 8259 (section 7) and of UTF-8 (RFC 3629, section 3). */
module JsonText {
  import opened Bytes
  import opened Json

  // ---- UTF-8 -------------------------------------------------------------

  predicate Continues(b: byte) {
    0x80 <= b <= 0xBF
  }

  /** The bytes are the UTF-8 encoding of `cp`, in its shortest form. */
  predicate Encodes(u: seq<byte>, cp: nat) {
    if cp < 0x80 then |u| == 1 && u[0] as int == cp
    else if cp < 0x800 then
      |u| == 2 && 0xC0 <= u[0] <= 0xDF && Continues(u[1]) &&
      64 * (u[0] as int - 0xC0) + (u[1] as int - 0x80) == cp
    else
      |u| == 3 && 0xE0 <= u[0] <= 0xEF && Continues(u[1]) && Continues(u[2]) &&
      4096 * (u[0] as int - 0xE0) + 64 * (u[1] as int - 0x80) + (u[2] as int - 0x80) == cp
  }

  lemma Split64(cp: nat)
    ensures cp == 64 * (cp / 64) + cp % 64 && 0 <= cp % 64 < 64
    ensures cp / 64 == 64 * (cp / 4096) + cp / 64 % 64
  {
    assert cp / 64 / 64 == cp / 4096;
  }

  /** A code point is written in UTF-8. */
  lemma Utf8Encodes(cp: nat)
    requires cp < 0x1_0000
    ensures Encodes(Utf8(cp), cp)
  {
    Split64(cp);
  }

  // ---- escapes -----------------------------------------------------------

  const LOWER: string := "0123456789abcdef"
  const UPPER: string := "0123456789ABCDEF"

  predicate IsHex(h: byte, n: nat) {
    n < 16 && (h as int == LOWER[n] as int || h as int == UPPER[n] as int)
  }

  lemma HexValue(h: byte, n: nat)
    requires n < 16
    ensures DigitValue(h) == Some(n) <==> IsHex(h, n)
  {
  }

  /** The six bytes `\uXXXX` stand at `p`, with these digits. */
  predicate UnicodeAt(json: seq<byte>, p: nat, a: nat, b: nat, c: nat, d: nat) {
    p + 6 <= |json| && json[p] == '\\' as int && json[p + 1] == 'u' as int &&
    IsHex(json[p + 2], a) && IsHex(json[p + 3], b) && IsHex(json[p + 4], c) && IsHex(json[p + 5], d)
  }

  /** Four hex digits of either case are one code point, in UTF-8. */
  lemma UnicodeDecodes(json: seq<byte>, p: nat, a: nat, b: nat, c: nat, d: nat)
    requires UnicodeAt(json, p, a, b, c, d)
    ensures var r := UnitAt(json, p);
            r.Some? && r.value.next == p + 6 && Encodes(r.value.bytes, 4096 * a + 256 * b + 16 * c + d)
  {
    HexValue(json[p + 2], a);
    HexValue(json[p + 3], b);
    HexValue(json[p + 4], c);
    HexValue(json[p + 5], d);
    var cp := 4096 * a + 256 * b + 16 * c + d;
    assert CodePoint(json, p + 2) == Some(cp);
    Utf8Encodes(cp);
  }

  /** The byte an escape other than `\u` stands for. */
  function Escapes(): map<int, int> {
    map['"' as int := 0x22, '\\' as int := 0x5C, '/' as int := 0x2F, 'b' as int := 0x08, 'f' as int := 0x0C,
        'n' as int := 0x0A, 'r' as int := 0x0D, 't' as int := 0x09]
  }

  /** Exactly the eight simple escapes are understood. */
  lemma SimpleDecodes(json: seq<byte>, p: nat)
    requires p + 1 < |json| && json[p] == '\\' as int && json[p + 1] != 'u' as int
    ensures var e := json[p + 1] as int;
            if e in Escapes() then UnitAt(json, p) == Some(Piece([Escapes()[e]], p + 2)) else UnitAt(json, p) == None
  {
  }

  /** A byte other than a quote, a backslash or a control character stands for itself,
      and no control character may stand in a literal. */
  lemma PlainDecodes(json: seq<byte>, p: nat)
    requires p < |json| && json[p] != '\\' as int
    ensures UnitAt(json, p) == if json[p] < 0x20 then None else Some(Piece([json[p]], p + 1))
  {
  }

  // ---- labels ------------------------------------------------------------

  lemma LabelUnitReadsBack(json: seq<byte>, p: nat, b: byte)
    requires Holds(json, p, EscapedLabel(b))
    ensures UnitAt(json, p) == Some(Piece([b], p + |EscapedLabel(b)|)) && json[p] != QUOTE
  {
    HoldsByte(json, p, EscapedLabel(b), 0);
    if |EscapedLabel(b)| == 6 {
      UnicodeReadsBack(json, p, b);
    } else if |EscapedLabel(b)| == 2 {
      HoldsByte(json, p, EscapedLabel(b), 1);
    }
  }

  lemma LabelFirst(name: seq<byte>)
    requires name != []
    ensures Flat(LabelUnits(name)) == EscapedLabel(name[0]) + Flat(LabelUnits(name[1..]))
  {
    FirstPart(LabelUnits(name));
    assert LabelUnits(name)[1..] == LabelUnits(name[1..]);
  }

  lemma LabelHeld(json: seq<byte>, p: nat, name: seq<byte>)
    requires name != [] && Holds(json, p, Flat(LabelUnits(name)) + [QUOTE])
    ensures Holds(json, p, EscapedLabel(name[0]))
    ensures Holds(json, p + |EscapedLabel(name[0])|, Flat(LabelUnits(name[1..])) + [QUOTE])
    ensures |Flat(LabelUnits(name))| == |EscapedLabel(name[0])| + |Flat(LabelUnits(name[1..]))|
  {
    LabelFirst(name);
    var rest := Flat(LabelUnits(name[1..])) + [QUOTE];
    assert Flat(LabelUnits(name)) + [QUOTE] == EscapedLabel(name[0]) + rest;
    HoldsParts(json, p, EscapedLabel(name[0]), rest);
  }

  lemma EmptyLabel(json: seq<byte>, p: nat)
    requires Holds(json, p, Flat(LabelUnits([])) + [QUOTE])
    ensures Decoded(json, p) == Some(Piece([], p + 1))
  {
    HoldsByte(json, p, Flat(LabelUnits([])) + [QUOTE], 0);
  }

  lemma LabelThenRest(json: seq<byte>, p: nat, name: seq<byte>, next: nat, end: nat)
    requires name != [] && Holds(json, p, EscapedLabel(name[0])) && next == p + |EscapedLabel(name[0])|
    requires Decoded(json, next) == Some(Piece(name[1..], end))
    ensures Decoded(json, p) == Some(Piece(name, end))
  {
    LabelUnitReadsBack(json, p, name[0]);
    OneUnit(json, p, name[0], name[1..], next, end);
    assert [name[0]] + name[1..] == name;
  }

  lemma {:induction false} LabelRoundTrip(json: seq<byte>, p: nat, name: seq<byte>, end: nat)
    requires Holds(json, p, Flat(LabelUnits(name)) + [QUOTE]) && end == p + |Flat(LabelUnits(name))| + 1
    ensures Decoded(json, p) == Some(Piece(name, end))
    decreases |name|
  {
    if name == [] {
      EmptyLabel(json, p);
    } else {
      var next := p + |EscapedLabel(name[0])|;
      LabelHeld(json, p, name);
      LabelRoundTrip(json, next, name[1..], end);
      LabelThenRest(json, p, name, next, end);
    }
  }

  /** The message opens with its type and the key "name", whose literal decodes to
      exactly the name. */
  lemma NameRoundTrip(name: seq<byte>, src: seq<byte>)
    ensures var json := ScriptJson(name, src);
            |HEAD| <= |json| && json[..|HEAD|] == Ascii("{\"type\":\"script\",\"name\":") &&
            StringAt(json, |HEAD|) == Some(Piece(name, |HEAD| + |Literal(name)|))
  {
    var json := ScriptJson(name, src);
    var rest := SRC_KEY + [QUOTE] + Body(src) + [QUOTE] + [0x7D];
    var text := Flat(LabelUnits(name)) + [QUOTE];
    assert json == HEAD + [QUOTE] + text + rest;
    var at := |HEAD|;
    assert json[at] == QUOTE && Holds(json, at + 1, text);
    LabelRoundTrip(json, at + 1, name, at + |Literal(name)|);
    OpensHere(json, at);
  }
}
