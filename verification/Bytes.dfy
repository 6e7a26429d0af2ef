/** Byte strings shared by the binary formats: little-endian numbers, tables of
    records and blobs of NUL-terminated names. */
module Bytes {

  type byte = x: int | 0 <= x < 0x100
  type u16 = x: int | 0 <= x < 0x1_0000
  type u32 = x: int | 0 <= x < 0x1_0000_0000

  datatype Option<T> = None | Some(value: T)

  function Least(a: int, b: int): int {
    if a < b then a else b
  }

  // ---- numbers -----------------------------------------------------------

  function Le16(v: u16): (r: seq<byte>)
    ensures |r| == 2
  {
    [v % 256, v / 256]
  }

  function Le32(v: u32): (r: seq<byte>)
    ensures |r| == 4
  {
    [v % 256, v / 256 % 256, v / 65536 % 256, v / 16777216]
  }

  function U16At(d: seq<byte>, off: nat): u16
    requires off + 2 <= |d|
  {
    d[off] as int + 256 * (d[off + 1] as int)
  }

  function U32At(d: seq<byte>, off: nat): u32
    requires off + 4 <= |d|
  {
    d[off] as int + 256 * (d[off + 1] as int) + 65536 * (d[off + 2] as int) + 16777216 * (d[off + 3] as int)
  }

  /** Numbers are little-endian: the first byte counts ones, the next 256s. */
  lemma LittleEndian(v: u16, w: u32)
    ensures v == Le16(v)[0] as int + 256 * (Le16(v)[1] as int)
    ensures w == Le32(w)[0] as int + 256 * (Le32(w)[1] as int) + 65536 * (Le32(w)[2] as int)
                 + 16777216 * (Le32(w)[3] as int)
  {
    FourDigits(w);
  }

  lemma Le16RoundTrip(d: seq<byte>, off: nat, v: u16)
    requires off + 2 <= |d| && d[off..off + 2] == Le16(v)
    ensures U16At(d, off) == v
  {
    assert d[off] == Le16(v)[0] && d[off + 1] == Le16(v)[1];
  }

  lemma Le32RoundTrip(d: seq<byte>, off: nat, v: u32)
    requires off + 4 <= |d| && d[off..off + 4] == Le32(v)
    ensures U32At(d, off) == v
  {
    assert d[off] == Le32(v)[0] && d[off + 1] == Le32(v)[1];
    assert d[off + 2] == Le32(v)[2] && d[off + 3] == Le32(v)[3];
    FourDigits(v);
  }

  lemma FourDigits(v: u32)
    ensures v == v % 256 + 256 * (v / 256 % 256) + 65536 * (v / 65536 % 256) + 16777216 * (v / 16777216)
  {
    var a, b := v / 256, v / 65536;
    assert b == a / 256 && v / 16777216 == b / 256;
  }

  // ---- tables ------------------------------------------------------------

  function Flat(rows: seq<seq<byte>>): seq<byte> {
    if rows == [] then [] else Flat(rows[..|rows| - 1]) + rows[|rows| - 1]
  }

  /** One more row written after `out`. */
  lemma AppendRow(out: seq<byte>, before: seq<byte>, rows: seq<seq<byte>>, i: nat, row: seq<byte>)
    requires i < |rows| && row == rows[i] && before == out + Flat(rows[..i])
    ensures before + row == out + Flat(rows[..i + 1])
  {
    FlatPush(rows, i);
  }

  lemma FlatPush(rows: seq<seq<byte>>, i: nat)
    requires i < |rows|
    ensures Flat(rows[..i + 1]) == Flat(rows[..i]) + rows[i]
  {
    assert rows[..i + 1][..i] == rows[..i];
  }

  lemma {:induction false} FlatAppend(a: seq<seq<byte>>, b: seq<seq<byte>>)
    ensures Flat(a + b) == Flat(a) + Flat(b)
  {
    if b == [] {
      assert a + b == a;
    } else {
      FlatAppend(a, b[..|b| - 1]);
      assert (a + b)[..|a + b| - 1] == a + b[..|b| - 1];
    }
  }

  /** Row `i` sits right after the rows before it. */
  lemma {:induction false} FlatRow(rows: seq<seq<byte>>, i: nat)
    requires i < |rows|
    ensures var off := |Flat(rows[..i])|;
            off + |rows[i]| <= |Flat(rows)| && Flat(rows)[off..off + |rows[i]|] == rows[i]
  {
    assert rows == rows[..i] + ([rows[i]] + rows[i + 1..]);
    FlatAppend(rows[..i], [rows[i]] + rows[i + 1..]);
    FlatAppend([rows[i]], rows[i + 1..]);
    assert Flat([rows[i]]) == rows[i];
  }

  predicate AllWide(rows: seq<seq<byte>>, w: nat) {
    forall i :: 0 <= i < |rows| ==> |rows[i]| == w
  }

  lemma {:induction false} FlatSize(rows: seq<seq<byte>>, w: nat)
    requires AllWide(rows, w)
    ensures |Flat(rows)| == w * |rows|
  {
    if rows == [] {
    } else {
      FlatSize(rows[..|rows| - 1], w);
      assert w * |rows| == w * (|rows| - 1) + w;
    }
  }

  lemma SliceOfSlice(d: seq<byte>, at: nat, part: seq<byte>, off: nat, piece: seq<byte>)
    requires at + |part| <= |d| && d[at..at + |part|] == part
    requires off + |piece| <= |part| && part[off..off + |piece|] == piece
    ensures d[at + off..at + off + |piece|] == piece
  {
    forall k | 0 <= k < |piece| ensures d[at + off..at + off + |piece|][k] == piece[k] {
      assert piece[k] == part[off..off + |piece|][k];
      assert part[off + k] == d[at..at + |part|][off + k];
    }
  }

  /** Row `i` of a table of `w`-byte records embedded in a byte string. */
  lemma TableRow(d: seq<byte>, at: nat, rows: seq<seq<byte>>, w: nat, i: nat)
    requires AllWide(rows, w) && i < |rows|
    requires at + |Flat(rows)| <= |d| && d[at..at + |Flat(rows)|] == Flat(rows)
    ensures w * i + w <= w * |rows| == |Flat(rows)|
    ensures d[at + w * i..at + w * i + w] == rows[i]
  {
    FlatSize(rows, w);
    FlatSize(rows[..i], w);
    FlatRow(rows, i);
    SliceOfSlice(d, at, Flat(rows), w * i, rows[i]);
  }

  lemma RowInTable(w: nat, n: nat, i: nat)
    requires i < n
    ensures 0 <= w * i && w * i + w <= w * n
  {
    Distribute(w, i, n - i);
    Grows(w, n - i);
  }

  lemma Distribute(w: nat, i: nat, j: nat)
    ensures w * (i + j) == w * i + w * j
  {
  }

  lemma Grows(w: nat, m: nat)
    requires m > 0
    ensures w * m >= w
  {
  }

  function Row(d: seq<byte>, at: nat, w: nat, n: nat, i: nat): (row: seq<byte>)
    requires i < n && at + w * n <= |d|
    ensures |row| == w
  {
    RowInTable(w, n, i);
    d[at + w * i..at + w * i + w]
  }

  /** The `n` records of `w` bytes starting at `at`. */
  function Rows(d: seq<byte>, at: nat, w: nat, n: nat): (rows: seq<seq<byte>>)
    requires at + w * n <= |d|
    ensures |rows| == n && AllWide(rows, w)
  {
    seq(n, i requires 0 <= i < n => Row(d, at, w, n, i))
  }

  /** `part` stands at `at`. */
  predicate Holds<T(==)>(d: seq<T>, at: nat, part: seq<T>) {
    at + |part| <= |d| && d[at..at + |part|] == part
  }

  lemma HoldsParts(d: seq<byte>, pos: nat, front: seq<byte>, last: seq<byte>)
    requires Holds(d, pos, front + last)
    ensures Holds(d, pos, front) && Holds(d, pos + |front|, last)
  {
    assert (front + last)[..|front|] == front && (front + last)[|front|..] == last;
    SliceOfSlice(d, pos, front + last, 0, front);
    SliceOfSlice(d, pos, front + last, |front|, last);
  }

  lemma HoldsByte(d: seq<byte>, pos: nat, row: seq<byte>, off: nat)
    requires Holds(d, pos, row) && off < |row|
    ensures d[pos + off] == row[off]
  {
    assert d[pos..pos + |row|][off] == row[off];
  }

  /** A flattened table reads back as its rows. */
  lemma RowsReadBack(d: seq<byte>, at: nat, table: seq<byte>, rows: seq<seq<byte>>, w: nat)
    requires AllWide(rows, w) && table == Flat(rows) && Holds(d, at, table)
    ensures |table| == w * |rows| && Rows(d, at, w, |rows|) == rows
  {
    FlatSize(rows, w);
    forall i | 0 <= i < |rows| ensures Row(d, at, w, |rows|, i) == rows[i] {
      TableRow(d, at, rows, w, i);
    }
  }

  /** Row `i` of a table, `off` bytes into it. */
  lemma RowHeld(d: seq<byte>, at: nat, rows: seq<seq<byte>>, i: nat, off: nat)
    requires Holds(d, at, Flat(rows)) && i < |rows| && off == |Flat(rows[..i])|
    ensures Holds(d, at + off, rows[i])
  {
    FlatRow(rows, i);
    SliceOfSlice(d, at, Flat(rows), off, rows[i]);
  }

  /** A part of the last part. */
  lemma NameHeld(d: seq<byte>, at: nat, blob: seq<byte>, off: nat, name: seq<byte>)
    requires at <= |d| && d[at..] == blob && off + |name| <= |blob| && blob[off..off + |name|] == name
    ensures Holds(d, at + off, name)
  {
    forall k | 0 <= k < |name| ensures d[at + off..at + off + |name|][k] == name[k] {
      assert blob[off..off + |name|][k] == name[k] && d[at..][off + k] == blob[off + k];
    }
  }

  // ---- parts -------------------------------------------------------------

  /** Where part `k` of a byte string made of parts starts. */
  function PartStart(parts: seq<seq<byte>>, k: nat): nat
    requires k <= |parts|
  {
    |Flat(parts[..k])|
  }

  lemma PartAt(parts: seq<seq<byte>>, k: nat, part: seq<byte>)
    requires k < |parts| && part == parts[k]
    ensures var off := PartStart(parts, k);
            PartStart(parts, k + 1) == off + |part| && Holds(Flat(parts), off, part)
  {
    FlatRow(parts, k);
    FlatPush(parts, k);
  }

  lemma {:induction false} FirstPart(parts: seq<seq<byte>>)
    requires |parts| > 0
    ensures Flat(parts) == parts[0] + Flat(parts[1..])
  {
    var n := |parts| - 1;
    if n == 0 {
      assert parts[..0] == [];
    } else {
      FirstPart(parts[..n]);
      assert parts[..n][1..] == parts[1..][..n - 1];
      assert parts[1..][n - 1] == parts[n];
    }
  }

  lemma LastPartAt(parts: seq<seq<byte>>, part: seq<byte>)
    requires |parts| > 0 && part == parts[|parts| - 1]
    ensures PartStart(parts, |parts| - 1) + |part| == |Flat(parts)|
    ensures Flat(parts)[PartStart(parts, |parts| - 1)..] == part
  {
  }

  lemma TableSize(parts: seq<seq<byte>>, k: nat, rows: seq<seq<byte>>, w: nat)
    requires k < |parts| && parts[k] == Flat(rows) && AllWide(rows, w)
    ensures PartStart(parts, k + 1) == PartStart(parts, k) + w * |rows|
  {
    FlatPush(parts, k);
    FlatSize(rows, w);
  }

  /** A table that is one of the parts reads back as its rows. */
  lemma TablePart(parts: seq<seq<byte>>, k: nat, rows: seq<seq<byte>>, w: nat)
    requires k < |parts| && parts[k] == Flat(rows) && AllWide(rows, w)
    ensures var d, at := Flat(parts), PartStart(parts, k);
            PartStart(parts, k + 1) == at + w * |rows| <= |d| && Rows(d, at, w, |rows|) == rows
  {
    var table := parts[k];
    PartAt(parts, k, table);
    RowsReadBack(Flat(parts), PartStart(parts, k), table, rows, w);
  }

  // ---- buffers -----------------------------------------------------------

  /** `n` separate zeroed buffers. */
  method AllocateBuffers(n: nat, size: nat) returns (bufs: seq<array<byte>>)
    ensures |bufs| == n && fresh(bufs)
    ensures forall u :: 0 <= u < n ==> bufs[u].Length == size && forall i :: 0 <= i < size ==> bufs[u][i] == 0
    ensures forall u, v :: 0 <= u < v < n ==> bufs[u] != bufs[v]
  {
    bufs := [];
    for i := 0 to n
      invariant |bufs| == i && fresh(bufs)
      invariant forall u :: 0 <= u < i ==> bufs[u].Length == size && forall j :: 0 <= j < size ==> bufs[u][j] == 0
      invariant forall u, v :: 0 <= u < v < i ==> bufs[u] != bufs[v]
    {
      var b := new byte[size](_ => 0);
      bufs := bufs + [b];
    }
  }

  // ---- C strings ---------------------------------------------------------

  predicate NulFree(s: seq<byte>) {
    forall i :: 0 <= i < |s| ==> s[i] != 0
  }

  /** A NUL occurs at or after `off`. */
  predicate Terminated(blob: seq<byte>, off: nat) {
    exists i :: off <= i < |blob| && blob[i] == 0
  }

  /** The C string starting at `off`. */
  function CStringAt(blob: seq<byte>, off: nat): (s: seq<byte>)
    requires off <= |blob|
    ensures off + |s| <= |blob| && s == blob[off..off + |s|] && NulFree(s)
    ensures off + |s| < |blob| ==> blob[off + |s|] == 0
    decreases |blob| - off
  {
    if off == |blob| || blob[off] == 0 then [] else [blob[off]] + CStringAt(blob, off + 1)
  }

  /** A NUL-free name followed by its NUL reads back as that name. */
  lemma NameReadsBack(blob: seq<byte>, off: nat, name: seq<byte>)
    requires NulFree(name)
    requires off + |name| < |blob| && blob[off..off + |name| + 1] == name + [0]
    ensures CStringAt(blob, off) == name && Terminated(blob, off)
  {
    var s := CStringAt(blob, off);
    assert blob[off + |name|] == (name + [0])[|name|];
    assert forall i :: off <= i < off + |name| ==> blob[i] == blob[off..off + |name| + 1][i - off] == name[i - off];
    assert forall i :: 0 <= i < |s| ==> s[i] == blob[off + i];
    assert |s| == |name|;
  }

  lemma EndsInNul(blob: seq<byte>, off: nat, name: seq<byte>)
    requires off + |name| < |blob| && blob[off..off + |name| + 1] == name + [0]
    ensures Terminated(blob, off)
  {
    assert blob[off + |name|] == blob[off..off + |name| + 1][|name|] == (name + [0])[|name|] == 0;
  }

  /** A chunk that is a name and its NUL, in a blob of chunks. */
  lemma NameChunkAt(chunks: seq<seq<byte>>, i: nat, name: seq<byte>)
    requires i < |chunks| && chunks[i] == name + [0]
    ensures var blob, off := Flat(chunks), |Flat(chunks[..i])|;
            off + |name| < |blob| && blob[off..off + |name| + 1] == name + [0] && Terminated(blob, off)
  {
    FlatRow(chunks, i);
    var blob, off := Flat(chunks), |Flat(chunks[..i])|;
    EndsInNul(blob, off, name);
  }

  lemma TerminatedSuffix(blob: seq<byte>, off: nat)
    requires off <= |blob|
    ensures Terminated(blob, off) <==> Terminated(blob[off..], 0)
  {
    if Terminated(blob, off) {
      var i :| off <= i < |blob| && blob[i] == 0;
      assert blob[off..][i - off] == 0;
    }
  }

  /** The search the parsers make with memchr. */
  method HasNulWithin(d: seq<byte>, start: nat, len: nat) returns (found: bool)
    requires start + len <= |d|
    ensures found <==> Terminated(d[start..start + len], 0)
  {
    ghost var region := d[start..start + len];
    var i := 0;
    while i < len
      invariant i <= len
      invariant forall k :: 0 <= k < i ==> region[k] != 0
    {
      assert d[start + i] == region[i];
      if d[start + i] == 0 { return true; }
      i := i + 1;
    }
    return false;
  }
}
