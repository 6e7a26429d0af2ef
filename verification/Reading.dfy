/** Reading a byte string from a position on, strictly within its bounds, and what
    reading a table of records one after the other amounts to. */
module Reading {
  import opened Bytes

  datatype Read<T> = Fail | Got(value: T, next: nat)

  /** Reads entry `i` of a table: bytes, position, `i`. */
  type Reader<T> = (seq<byte>, nat, nat) -> Read<T>

  function U8(d: seq<byte>, pos: nat): Read<byte> {
    if pos + 1 > |d| then Fail else Got(d[pos], pos + 1)
  }

  function U16(d: seq<byte>, pos: nat): Read<u16> {
    if pos + 2 > |d| then Fail else Got(U16At(d, pos), pos + 2)
  }

  function U32(d: seq<byte>, pos: nat): Read<u32> {
    if pos + 4 > |d| then Fail else Got(U32At(d, pos), pos + 4)
  }

  function Text(d: seq<byte>, pos: nat, len: nat): Read<seq<byte>> {
    if pos + len > |d| then Fail else Got(d[pos..pos + len], pos + len)
  }

  /** A 16-bit length and that many bytes. */
  function Blob(d: seq<byte>, pos: nat): Read<seq<byte>> {
    match U16(d, pos)
    case Fail => Fail
    case Got(len, next) => Text(d, next, len)
  }

  /** `n` entries in a row. */
  ghost function Many<T>(read: Reader<T>, d: seq<byte>, pos: nat, n: nat): (r: Read<seq<T>>)
    ensures r.Got? ==> |r.value| == n
  {
    if n == 0 then Got([], pos) else
      match Many(read, d, pos, n - 1)
      case Fail => Fail
      case Got(values, next) => Extended(values, read(d, next, n - 1))
  }

  ghost function Extended<T>(values: seq<T>, r: Read<T>): (e: Read<seq<T>>)
    ensures e.Got? ==> |e.value| == |values| + 1
  {
    match r
    case Fail => Fail
    case Got(v, next) => Got(values + [v], next)
  }

  lemma {:induction false} ManyStop<T>(read: Reader<T>, d: seq<byte>, pos: nat, i: nat, n: nat)
    requires i <= n && Many(read, d, pos, i).Fail?
    ensures Many(read, d, pos, n).Fail?
  {
    if i < n { ManyStop(read, d, pos, i, n - 1); }
  }

  // ---- reading what was written ------------------------------------------

  ghost predicate Writes<T(!new)>(read: Reader<T>, row: seq<byte>, i: nat, v: T) {
    forall d: seq<byte>, pos: nat {:trigger read(d, pos, i)} :: Holds(d, pos, row) ==> read(d, pos, i) == Got(v, pos + |row|)
  }

  ghost predicate Refuses<T(!new)>(read: Reader<T>, row: seq<byte>, i: nat) {
    forall d: seq<byte>, pos: nat {:trigger read(d, pos, i)} :: Holds(d, pos, row) ==> read(d, pos, i).Fail?
  }

  ghost predicate WritesAll<T(!new)>(read: Reader<T>, rows: seq<seq<byte>>, values: seq<T>) {
    |rows| == |values| && forall i :: 0 <= i < |rows| ==> Writes(read, rows[i], i, values[i])
  }

  /** A table reads back as its entries. */
  lemma {:induction false} ManyReadBack<T(!new)>(
      read: Reader<T>, d: seq<byte>, pos: nat, rows: seq<seq<byte>>, values: seq<T>, end: nat)
    requires WritesAll(read, rows, values)
    requires Holds(d, pos, Flat(rows)) && end == pos + |Flat(rows)|
    ensures Many(read, d, pos, |rows|) == Got(values, end)
  {
    if rows == [] {
    } else {
      var n := |rows| - 1;
      var front := Flat(rows[..n]);
      HoldsParts(d, pos, front, rows[n]);
      var mid := pos + |front|;
      ManyReadBack(read, d, pos, rows[..n], values[..n], mid);
      assert values[..n] + [values[n]] == values;
      assert Writes(read, rows[n], n, values[n]) && read(d, mid, n) == Got(values[n], mid + |rows[n]|);
    }
  }

  /** One refused entry refuses the table. */
  lemma ManyRefused<T(!new)>(
      read: Reader<T>, d: seq<byte>, pos: nat, rows: seq<seq<byte>>, values: seq<T>)
    requires |values| < |rows| && WritesAll(read, rows[..|values|], values)
    requires Refuses(read, rows[|values|], |values|)
    requires Holds(d, pos, Flat(rows))
    ensures Many(read, d, pos, |rows|).Fail?
  {
    var k := |values|;
    HoldsRow(d, pos, rows, k);
    var mid := pos + |Flat(rows[..k])|;
    ManyReadBack(read, d, pos, rows[..k], values, mid);
    assert read(d, mid, k).Fail?;
    ManyStop(read, d, pos, k + 1, |rows|);
  }

  /** The same for a table that is one part of a string made of parts. */
  lemma TableReads<T(!new)>(read: Reader<T>, parts: seq<seq<byte>>, k: nat, rows: seq<seq<byte>>, values: seq<T>)
    requires k < |parts| && parts[k] == Flat(rows) && WritesAll(read, rows, values)
    ensures Many(read, Flat(parts), PartStart(parts, k), |rows|) == Got(values, PartStart(parts, k + 1))
  {
    PartAt(parts, k, parts[k]);
    ManyReadBack(read, Flat(parts), PartStart(parts, k), rows, values, PartStart(parts, k + 1));
  }

  lemma TableStops<T(!new)>(read: Reader<T>, parts: seq<seq<byte>>, k: nat, rows: seq<seq<byte>>, values: seq<T>)
    requires k < |parts| && parts[k] == Flat(rows)
    requires |values| < |rows| && WritesAll(read, rows[..|values|], values)
    requires Refuses(read, rows[|values|], |values|)
    ensures Many(read, Flat(parts), PartStart(parts, k), |rows|).Fail?
  {
    PartAt(parts, k, parts[k]);
    ManyRefused(read, Flat(parts), PartStart(parts, k), rows, values);
  }

  lemma HoldsRow(d: seq<byte>, pos: nat, rows: seq<seq<byte>>, k: nat)
    requires k < |rows| && Holds(d, pos, Flat(rows))
    ensures Holds(d, pos, Flat(rows[..k])) && Holds(d, pos + |Flat(rows[..k])|, rows[k])
  {
    var front, rest := Flat(rows[..k]), Flat(rows[k..]);
    assert rows == rows[..k] + rows[k..];
    FlatAppend(rows[..k], rows[k..]);
    HoldsParts(d, pos, front, rest);
    FirstPart(rows[k..]);
    HoldsParts(d, pos + |front|, rows[k], Flat(rows[k..][1..]));
  }

  // ---- reading a longer string -------------------------------------------

  /** What is read from a prefix is read just so from the whole string. */
  ghost predicate Local<T(!new)>(read: Reader<T>) {
    forall p: seq<byte>, d: seq<byte>, pos: nat, i: nat {:trigger read(p, pos, i), read(d, pos, i)} ::
      p <= d && read(p, pos, i).Got? ==> read(d, pos, i) == read(p, pos, i) && read(p, pos, i).next <= |p|
  }

  lemma {:induction false} ManyLocal<T(!new)>(read: Reader<T>, p: seq<byte>, d: seq<byte>, pos: nat, n: nat)
    requires Local(read) && p <= d && pos <= |p| && Many(read, p, pos, n).Got?
    ensures Many(read, d, pos, n) == Many(read, p, pos, n) && Many(read, p, pos, n).next <= |p|
  {
    if n == 0 {
    } else {
      ManyLocal(read, p, d, pos, n - 1);
      var mid := Many(read, p, pos, n - 1).next;
      assert read(d, mid, n - 1) == read(p, mid, n - 1);
    }
  }

  lemma NumbersLocal(p: seq<byte>, d: seq<byte>, pos: nat)
    requires p <= d
    ensures pos + 2 <= |p| ==> U16At(d, pos) == U16At(p, pos)
    ensures pos + 4 <= |p| ==> U32At(d, pos) == U32At(p, pos)
  {
  }

  lemma TextLocal(p: seq<byte>, d: seq<byte>, pos: nat, len: nat)
    requires p <= d && pos + len <= |p|
    ensures d[pos..pos + len] == p[pos..pos + len]
  {
  }

  lemma BlobLocal(p: seq<byte>, d: seq<byte>, pos: nat)
    requires p <= d && Blob(p, pos).Got?
    ensures Blob(d, pos) == Blob(p, pos) && Blob(p, pos).next <= |p|
  {
    NumbersLocal(p, d, pos);
    TextLocal(p, d, pos + 2, U16At(p, pos));
  }

  /** The numbers of a record, seen from the string that holds it. */
  lemma HoldsU16(d: seq<byte>, pos: nat, row: seq<byte>, off: nat, v: u16)
    requires Holds(d, pos, row) && off + 2 <= |row| && row[off] == v % 256 && row[off + 1] == v / 256
    ensures U16At(d, pos + off) == v
  {
    HoldsByte(d, pos, row, off);
    HoldsByte(d, pos, row, off + 1);
  }

  lemma HoldsU32(d: seq<byte>, pos: nat, row: seq<byte>, off: nat, v: u32)
    requires Holds(d, pos, row) && off + 4 <= |row| && row[off..off + 4] == Le32(v)
    ensures U32At(d, pos + off) == v
  {
    SliceOfSlice(d, pos, row, off, Le32(v));
    Le32RoundTrip(d, pos + off, v);
  }

  lemma BlobReadsBack(d: seq<byte>, pos: nat, blob: seq<byte>)
    requires |blob| < 0x1_0000 && Holds(d, pos, Le16(|blob|) + blob)
    ensures Blob(d, pos) == Got(blob, pos + 2 + |blob|)
  {
    HoldsParts(d, pos, Le16(|blob|), blob);
    Le16RoundTrip(d, pos, |blob|);
  }
}
