/** The address checks of compileShow (provision.cpp): splitting a matrix over the
    universes it reaches, and finding every pair of patched items that share channels. */
module Collisions {
  import opened Bytes

  const SIZE: nat := 512
  const UNIVERSES: nat := 256

  /** Addresses count from 1; `owner` is the patched item the range belongs to. */
  datatype Range = Range(universe: byte, from: int, to: int, owner: nat)

  /** A patched item; universes count from 0, addresses from 1. */
  datatype Item =
    | Fixture(universe: byte, base: nat, footprint: nat)
    | Matrix(startUniverse: byte, startChannel: nat, width: u16, height: u16)

  /** What the line parser lets through. */
  predicate ItemOk(t: Item) {
    match t
    case Fixture(u, base, footprint) => u < 8 && 1 <= base && 1 <= footprint <= 255 && base + footprint - 1 <= SIZE
    case Matrix(u, channel, w, h) => u < 8 && 1 <= channel <= SIZE
  }

  // ---- splitting a span --------------------------------------------------

  /** Global channel `g` lies in range `r`. */
  predicate Covers(r: Range, g: int) {
    r.universe as int * SIZE + r.from - 1 <= g <= r.universe as int * SIZE + r.to - 1
  }

  predicate InRange(r: Range, address: int) {
    r.from <= address <= r.to
  }

  predicate RangeOk(r: Range) {
    1 <= r.from <= r.to <= SIZE
  }

  function SpanEnd(g: nat, end: nat): (e: nat)
    requires g <= end
    ensures g <= e <= end && e / SIZE == g / SIZE
    ensures e < end ==> e + 1 == (g / SIZE + 1) * SIZE
  {
    var universeEnd := g / SIZE * SIZE + (SIZE - 1);
    if end < universeEnd then end else universeEnd
  }

  function Piece(g: nat, end: nat, owner: nat): (r: Range)
    requires g <= end && g / SIZE < UNIVERSES
    ensures RangeOk(r) && r.universe == g / SIZE && r.owner == owner
    ensures forall c: int :: Covers(r, c) <==> g <= c <= SpanEnd(g, end)
  {
    var e := SpanEnd(g, end);
    var r := Range(g / SIZE, g % SIZE + 1, e % SIZE + 1, owner);
    assert r.universe as int * SIZE + r.from - 1 == g && r.universe as int * SIZE + r.to - 1 == e;
    r
  }

  /** The pieces of the channels `g` to `end`, one per universe, as far as universes go. */
  function Pieces(g: nat, end: int, owner: nat): seq<Range>
    decreases end - g
  {
    if g > end || g / SIZE >= UNIVERSES then []
    else [Piece(g, end, owner)] + Pieces(SpanEnd(g, end) + 1, end, owner)
  }

  predicate Touches(rs: seq<Range>, g: int) {
    exists k :: 0 <= k < |rs| && Covers(rs[k], g)
  }

  /** The pieces cover exactly the span, up to the last representable universe. */
  lemma {:induction false} PiecesPartition(g: nat, end: int, owner: nat, c: int)
    ensures Touches(Pieces(g, end, owner), c) <==> g <= c <= end && c < SIZE * UNIVERSES
    decreases end - g
  {
    if g > end || g / SIZE >= UNIVERSES {
      if g / SIZE >= UNIVERSES { assert g >= SIZE * UNIVERSES; }
    } else {
      var e := SpanEnd(g, end);
      var rest := Pieces(e + 1, end, owner);
      PiecesPartition(e + 1, end, owner, c);
      assert e / SIZE < UNIVERSES && e < SIZE * UNIVERSES;
      TouchesFirst(Piece(g, end, owner), rest, c);
    }
  }

  lemma TouchesFirst(first: Range, rest: seq<Range>, c: int)
    ensures Touches([first] + rest, c) <==> Covers(first, c) || Touches(rest, c)
  {
    var all := [first] + rest;
    if Covers(first, c) { assert Covers(all[0], c); }
    if Touches(rest, c) {
      var k :| 0 <= k < |rest| && Covers(rest[k], c);
      assert Covers(all[k + 1], c);
    }
    if Touches(all, c) && !Covers(first, c) {
      var k :| 0 <= k < |all| && Covers(all[k], c);
      assert all[k] == rest[k - 1];
    }
  }

  /** At most one piece per universe, in universe order, all well formed. */
  lemma {:induction false} PiecesApart(g: nat, end: int, owner: nat)
    ensures Climbing(Pieces(g, end, owner), g / SIZE, owner)
    decreases end - g
  {
    if g <= end && g / SIZE < UNIVERSES {
      var e := SpanEnd(g, end);
      PiecesApart(e + 1, end, owner);
      if e == end {
        assert Pieces(e + 1, end, owner) == [];
      } else {
        assert (e + 1) / SIZE == g / SIZE + 1;
      }
      ClimbingFrom(Piece(g, end, owner), Pieces(e + 1, end, owner), g / SIZE, owner);
    }
  }

  /** Sound ranges of one owner in ever higher universes, from `u` on. */
  predicate Climbing(rs: seq<Range>, u: nat, owner: nat) {
    (forall k :: 0 <= k < |rs| ==> RangeOk(rs[k]) && rs[k].owner == owner && rs[k].universe as int >= u) &&
    forall j, k :: 0 <= j < k < |rs| ==> rs[j].universe < rs[k].universe
  }

  lemma ClimbingFrom(first: Range, rest: seq<Range>, u: nat, owner: nat)
    requires RangeOk(first) && first.owner == owner && first.universe as int == u
    requires rest == [] || Climbing(rest, u + 1, owner)
    ensures Climbing([first] + rest, u, owner)
  {
    var all := [first] + rest;
    assert forall k :: 0 < k < |all| ==> all[k] == rest[k - 1];
  }

  lemma NextPiece(g: nat, end: int, owner: nat, spanEnd: nat)
    requires g <= end && g / SIZE < UNIVERSES && spanEnd == SpanEnd(g, end)
    ensures Pieces(g, end, owner)
            == [Range(g / 512, g % 512 + 1, spanEnd % 512 + 1, owner)] + Pieces(spanEnd + 1, end, owner)
  {
  }

  lemma Reassociate<T>(front: seq<T>, x: T, rest: seq<T>)
    ensures front + ([x] + rest) == (front + [x]) + rest
  {
  }

  method SplitFrom(globalStart: nat, globalEnd: int, owner: nat) returns (rs: seq<Range>)
    ensures rs == Pieces(globalStart, globalEnd, owner)
  {
    rs := [];
    var g: nat := globalStart;
    while g <= globalEnd
      invariant rs + Pieces(g, globalEnd, owner) == Pieces(globalStart, globalEnd, owner)
      decreases globalEnd - g + 1
    {
      var u := g / 512;
      var universeEnd := u * 512 + 511;
      var spanEnd := if globalEnd < universeEnd then globalEnd else universeEnd;
      if u > 255 { break; }
      NextPiece(g, globalEnd, owner, spanEnd);
      Reassociate(rs, Range(u, g % 512 + 1, spanEnd % 512 + 1, owner), Pieces(spanEnd + 1, globalEnd, owner));
      rs := rs + [Range(u, g % 512 + 1, spanEnd % 512 + 1, owner)];
      g := spanEnd + 1;
    }
    assert Pieces(g, globalEnd, owner) == [];
  }

  method SplitSpan(m: Item, owner: nat) returns (rs: seq<Range>)
    requires m.Matrix? && ItemOk(m)
    ensures rs == Pieces(First(m), Last(m), owner)
  {
    var totalChannels: int := m.width * m.height * 3;
    var globalStart := m.startUniverse as int * 512 + (m.startChannel - 1);
    rs := SplitFrom(globalStart, globalStart + totalChannels - 1, owner);
  }

  // ---- what an item occupies ---------------------------------------------

  function First(t: Item): nat
    requires ItemOk(t)
  {
    match t
    case Fixture(u, base, _) => u as int * SIZE + base - 1
    case Matrix(u, channel, _, _) => u as int * SIZE + channel - 1
  }

  function Last(t: Item): int
    requires ItemOk(t)
  {
    match t
    case Fixture(_, _, footprint) => First(t) + footprint - 1
    case Matrix(_, _, w, h) => First(t) + w * h * 3 - 1
  }

  /** The item drives global channel `g`, in a universe that can be represented. */
  predicate Drives(t: Item, g: int)
    requires ItemOk(t)
  {
    First(t) <= g <= Last(t) && g < SIZE * UNIVERSES
  }

  function RangesOf(t: Item, owner: nat): seq<Range>
    requires ItemOk(t)
  {
    match t
    case Fixture(u, base, footprint) => [Range(u, base, base + footprint - 1, owner)]
    case Matrix(_, _, _, _) => Pieces(First(t), Last(t), owner)
  }

  predicate ItemsOk(items: seq<Item>) {
    forall i :: 0 <= i < |items| ==> ItemOk(items[i])
  }

  /** The occupied ranges of all items, in order. */
  function Occupied(items: seq<Item>): seq<Range>
    requires ItemsOk(items)
  {
    if items == [] then [] else
      Occupied(items[..|items| - 1]) + RangesOf(items[|items| - 1], |items| - 1)
  }

  lemma RangesExact(t: Item, owner: nat, g: int)
    requires ItemOk(t)
    ensures Touches(RangesOf(t, owner), g) <==> Drives(t, g)
  {
    match t
    case Fixture(u, base, footprint) =>
      TouchesFirst(Range(u, base, base + footprint - 1, owner), [], g);
      assert [Range(u, base, base + footprint - 1, owner)] + [] == RangesOf(t, owner);
    case Matrix(_, _, _, _) =>
      PiecesPartition(First(t), Last(t), owner, g);
  }

  /** Ranges are sound, and no two of one owner share a universe. */
  predicate Apart(rs: seq<Range>, owners: nat) {
    (forall k :: 0 <= k < |rs| ==> RangeOk(rs[k]) && rs[k].owner < owners) &&
    forall j, k :: 0 <= j < k < |rs| ==> rs[j].owner != rs[k].owner || rs[j].universe != rs[k].universe
  }

  lemma RangesApart(t: Item, owner: nat)
    requires ItemOk(t)
    ensures forall k :: 0 <= k < |RangesOf(t, owner)| ==> RangesOf(t, owner)[k].owner == owner
    ensures Apart(RangesOf(t, owner), owner + 1)
  {
    var rs := RangesOf(t, owner);
    match t
    case Fixture(u, base, footprint) =>
      assert |rs| == 1 && rs[0] == Range(u, base, base + footprint - 1, owner);
    case Matrix(_, _, _, _) =>
      PiecesApart(First(t), Last(t), owner);
      assert rs == Pieces(First(t), Last(t), owner);
  }

  lemma ApartConcat(front: seq<Range>, last: seq<Range>, n: nat)
    requires Apart(front, n) && Apart(last, n + 1) && forall k :: 0 <= k < |last| ==> last[k].owner == n
    ensures Apart(front + last, n + 1)
  {
  }

  lemma {:induction false} OccupiedApart(items: seq<Item>)
    requires ItemsOk(items)
    ensures Apart(Occupied(items), |items|)
  {
    if items == [] {
    } else {
      var n := |items| - 1;
      OccupiedApart(items[..n]);
      RangesApart(items[n], n);
      ApartConcat(Occupied(items[..n]), RangesOf(items[n], n), n);
    }
  }

  /** Some range of owner `i` covers `g` exactly when item `i` drives it. */
  ghost predicate OwnerCovers(rs: seq<Range>, i: nat, g: int) {
    exists k :: 0 <= k < |rs| && rs[k].owner == i && Covers(rs[k], g)
  }

  lemma {:induction false} OccupiedExact(items: seq<Item>, i: nat, g: int)
    requires ItemsOk(items) && i < |items|
    ensures OwnerCovers(Occupied(items), i, g) <==> Drives(items[i], g)
  {
    var n := |items| - 1;
    var front, last := Occupied(items[..n]), RangesOf(items[n], n);
    CoversConcat(front, last, i, g);
    OwnRangesExact(items[n], n, i, g);
    if i < n {
      OccupiedExact(items[..n], i, g);
    } else {
      NotYetOccupied(items[..n], g);
    }
  }

  lemma NotYetOccupied(items: seq<Item>, g: int)
    requires ItemsOk(items)
    ensures !OwnerCovers(Occupied(items), |items|, g)
  {
    OccupiedApart(items);
  }

  lemma OwnRangesExact(t: Item, owner: nat, i: nat, g: int)
    requires ItemOk(t)
    ensures OwnerCovers(RangesOf(t, owner), i, g) <==> i == owner && Drives(t, g)
  {
    RangesApart(t, owner);
    RangesExact(t, owner, g);
    var rs := RangesOf(t, owner);
    if i == owner && Touches(rs, g) {
      var k :| 0 <= k < |rs| && Covers(rs[k], g);
      assert rs[k].owner == i;
    }
    if OwnerCovers(rs, i, g) {
      var k :| 0 <= k < |rs| && rs[k].owner == i && Covers(rs[k], g);
      assert Touches(rs, g);
    }
  }

  lemma CoversConcat(front: seq<Range>, last: seq<Range>, i: nat, g: int)
    ensures OwnerCovers(front + last, i, g) <==> OwnerCovers(front, i, g) || OwnerCovers(last, i, g)
  {
    var all := front + last;
    if OwnerCovers(front, i, g) {
      var k :| 0 <= k < |front| && front[k].owner == i && Covers(front[k], g);
      assert all[k] == front[k];
    }
    if OwnerCovers(last, i, g) {
      var k :| 0 <= k < |last| && last[k].owner == i && Covers(last[k], g);
      assert all[|front| + k] == last[k];
    }
    if OwnerCovers(all, i, g) {
      var k :| 0 <= k < |all| && all[k].owner == i && Covers(all[k], g);
      if k < |front| { assert front[k] == all[k]; } else { assert last[k - |front|] == all[k]; }
    }
  }

  method CollectOccupied(items: seq<Item>) returns (rs: seq<Range>)
    requires ItemsOk(items)
    ensures rs == Occupied(items)
  {
    rs := [];
    for i := 0 to |items|
      invariant rs == Occupied(items[..i])
    {
      assert items[..i + 1][..i] == items[..i];
      match items[i] {
        case Fixture(u, base, footprint) =>
          rs := rs + [Range(u, base, base + footprint - 1, i)];
        case Matrix(_, _, _, _) =>
          var pieces := SplitSpan(items[i], i);
          rs := rs + pieces;
      }
    }
    assert items[..|items|] == items;
  }

  // ---- the overlap pass --------------------------------------------------

  /** Ranges `a` and `b` share the addresses `from` to `to`. */
  datatype Collision = Collision(universe: byte, a: nat, b: nat, from: int, to: int)

  function Max(x: int, y: int): int {
    if x > y then x else y
  }

  function Min(x: int, y: int): int {
    if x < y then x else y
  }

  /** The positions of universe `u`'s ranges among the first `n`. */
  function Indices(rs: seq<Range>, u: byte, n: nat): (idxs: seq<nat>)
    requires n <= |rs|
    ensures forall i :: i in idxs <==> 0 <= i < n && rs[i].universe == u
    ensures forall j :: 0 <= j < |idxs| ==> idxs[j] < n && rs[idxs[j]].universe == u
    ensures forall j, k :: 0 <= j < k < |idxs| ==> idxs[j] < idxs[k]
  {
    if n == 0 then []
    else if rs[n - 1].universe == u then Indices(rs, u, n - 1) + [n - 1]
    else Indices(rs, u, n - 1)
  }

  predicate Overlap(r: Range, s: Range) {
    r.from <= s.to && s.from <= r.to
  }

  function Report(rs: seq<Range>, u: byte, a: nat, b: nat): Collision
    requires a < |rs| && b < |rs|
  {
    Collision(u, a, b, Max(rs[a].from, rs[b].from), Min(rs[a].to, rs[b].to))
  }

  /** `c` reports a pair of positions that overlap in universe `c.universe`. */
  predicate Genuine(rs: seq<Range>, c: Collision) {
    c.a < c.b < |rs| && rs[c.a].universe == c.universe && rs[c.b].universe == c.universe &&
    Overlap(rs[c.a], rs[c.b]) && c == Report(rs, c.universe, c.a, c.b)
  }

  /** The pairs of universe `u` whose first place in the list is below `p`, or is `p`
      with the second below `q`. */
  ghost predicate Due(idxs: seq<nat>, p: nat, q: nat, a: nat, b: nat) {
    exists j, k :: 0 <= j < k < |idxs| && idxs[j] == a && idxs[k] == b && (j < p || (j == p && k < q))
  }

  /** Exactly the due pairs that overlap have been reported for universe `u`. */
  ghost predicate Progress(rs: seq<Range>, u: byte, idxs: seq<nat>, p: nat, q: nat, cs: seq<Collision>) {
    forall c: Collision :: c in cs <==> c.universe == u && Genuine(rs, c) && Due(idxs, p, q, c.a, c.b)
  }

  lemma PairChecked(rs: seq<Range>, u: byte, idxs: seq<nat>, p: nat, q: nat, cs: seq<Collision>, ds: seq<Collision>)
    requires p < q < |idxs| && idxs == Indices(rs, u, |rs|) && Progress(rs, u, idxs, p, q, cs)
    requires ds == if Overlap(rs[idxs[p]], rs[idxs[q]]) then cs + [Report(rs, u, idxs[p], idxs[q])] else cs
    ensures Progress(rs, u, idxs, p, q + 1, ds)
  {
    var a, b := idxs[p], idxs[q];
    assert a in idxs && b in idxs;
    assert Due(idxs, p, q + 1, a, b);
    forall c: Collision ensures c in ds <==> c.universe == u && Genuine(rs, c) && Due(idxs, p, q + 1, c.a, c.b) {
      DueNext(idxs, p, q, c.a, c.b);
      if c.universe == u && Genuine(rs, c) && c.a == a && c.b == b {
        assert c == Report(rs, u, a, b);
      }
    }
  }

  lemma DueNext(idxs: seq<nat>, p: nat, q: nat, a: nat, b: nat)
    requires p < q < |idxs|
    ensures Due(idxs, p, q + 1, a, b) <==> Due(idxs, p, q, a, b) || (a == idxs[p] && b == idxs[q])
  {
    if Due(idxs, p, q + 1, a, b) && !(a == idxs[p] && b == idxs[q]) {
      var j, k :| 0 <= j < k < |idxs| && idxs[j] == a && idxs[k] == b && (j < p || (j == p && k < q + 1));
      assert j < p || (j == p && k < q);
    }
  }

  lemma DueRow(idxs: seq<nat>, p: nat, a: nat, b: nat)
    requires p < |idxs|
    ensures Due(idxs, p, |idxs|, a, b) <==> Due(idxs, p + 1, p + 2, a, b)
    ensures Due(idxs, p, p + 1, a, b) <==> Due(idxs, p, 0, a, b)
  {
    if Due(idxs, p + 1, p + 2, a, b) {
      var j, k :| 0 <= j < k < |idxs| && idxs[j] == a && idxs[k] == b && (j < p + 1 || (j == p + 1 && k < p + 2));
      assert j < p || (j == p && k < |idxs|);
    }
  }

  /** The pairs of one universe. */
  method CollideUniverse(rs: seq<Range>, u: byte, idxs: seq<nat>) returns (cs: seq<Collision>)
    requires idxs == Indices(rs, u, |rs|)
    ensures forall c: Collision :: c in cs <==> c.universe == u && Genuine(rs, c)
  {
    cs := [];
    assert Progress(rs, u, idxs, 0, 1, cs);
    for p := 0 to |idxs|
      invariant Progress(rs, u, idxs, p, p + 1, cs)
    {
      cs := CollideRow(rs, u, idxs, p, cs);
      RowDone(rs, u, idxs, p, cs);
    }
    AllDue(rs, u, idxs, cs);
  }

  /** The pairs whose first place in the list is `p`. */
  method CollideRow(rs: seq<Range>, u: byte, idxs: seq<nat>, p: nat, before: seq<Collision>)
      returns (cs: seq<Collision>)
    requires p < |idxs| && idxs == Indices(rs, u, |rs|) && Progress(rs, u, idxs, p, p + 1, before)
    ensures Progress(rs, u, idxs, p, |idxs|, cs)
  {
    cs := before;
    for q := p + 1 to |idxs|
      invariant Progress(rs, u, idxs, p, q, cs)
    {
      var ra, rb := rs[idxs[p]], rs[idxs[q]];
      ghost var soFar := cs;
      if ra.from <= rb.to && rb.from <= ra.to {
        var overlapFrom, overlapTo := Max(ra.from, rb.from), Min(ra.to, rb.to);
        cs := cs + [Collision(u, idxs[p], idxs[q], overlapFrom, overlapTo)];
      }
      PairChecked(rs, u, idxs, p, q, soFar, cs);
    }
  }

  lemma RowDone(rs: seq<Range>, u: byte, idxs: seq<nat>, p: nat, cs: seq<Collision>)
    requires p < |idxs| && Progress(rs, u, idxs, p, |idxs|, cs)
    ensures Progress(rs, u, idxs, p + 1, p + 2, cs)
  {
    forall c: Collision ensures c in cs <==> c.universe == u && Genuine(rs, c) && Due(idxs, p + 1, p + 2, c.a, c.b) {
      DueRow(idxs, p, c.a, c.b);
    }
  }

  /** Once the list is through, every pair is due. */
  lemma EveryPairDue(idxs: seq<nat>, a: nat, b: nat)
    requires a in idxs && b in idxs && a < b
    requires forall j, k :: 0 <= j < k < |idxs| ==> idxs[j] < idxs[k]
    ensures Due(idxs, |idxs|, |idxs| + 1, a, b)
  {
    var j :| 0 <= j < |idxs| && idxs[j] == a;
    var k :| 0 <= k < |idxs| && idxs[k] == b;
    assert j < k;
  }

  lemma AllDue(rs: seq<Range>, u: byte, idxs: seq<nat>, cs: seq<Collision>)
    requires idxs == Indices(rs, u, |rs|) && Progress(rs, u, idxs, |idxs|, |idxs| + 1, cs)
    ensures forall c: Collision :: c in cs <==> c.universe == u && Genuine(rs, c)
  {
    forall c: Collision | c.universe == u && Genuine(rs, c) ensures c in cs {
      EveryPairDue(idxs, c.a, c.b);
    }
  }

  /** A universe's list; none for a universe without ranges. */
  function ListFor(byUniverse: map<byte, seq<nat>>, u: byte): seq<nat> {
    if u in byUniverse then byUniverse[u] else []
  }

  method GroupByUniverse(rs: seq<Range>) returns (byUniverse: map<byte, seq<nat>>)
    ensures forall u: byte :: ListFor(byUniverse, u) == Indices(rs, u, |rs|)
  {
    byUniverse := map[];
    for i := 0 to |rs|
      invariant forall u: byte :: ListFor(byUniverse, u) == Indices(rs, u, i)
    {
      var u := rs[i].universe;
      ghost var before := byUniverse;
      byUniverse := byUniverse[u := ListFor(byUniverse, u) + [i]];
      Grouped(rs, i, before, byUniverse);
    }
  }

  lemma Grouped(rs: seq<Range>, i: nat, before: map<byte, seq<nat>>, after: map<byte, seq<nat>>)
    requires i < |rs| && forall u: byte :: ListFor(before, u) == Indices(rs, u, i)
    requires after == before[rs[i].universe := ListFor(before, rs[i].universe) + [i]]
    ensures forall u: byte :: ListFor(after, u) == Indices(rs, u, i + 1)
  {
    forall u: byte ensures ListFor(after, u) == Indices(rs, u, i + 1) {
      assert ListFor(before, u) == Indices(rs, u, i);
    }
  }

  /** Every colliding pair, and nothing else, with exactly the shared addresses. */
  method FindCollisions(rs: seq<Range>) returns (cs: seq<Collision>)
    ensures forall c: Collision :: c in cs <==> Genuine(rs, c)
  {
    var byUniverse := GroupByUniverse(rs);
    cs := [];
    for u := 0 to 256
      invariant forall c: Collision :: c in cs <==> Genuine(rs, c) && c.universe < u
    {
      var key: byte := u;
      if key in byUniverse {
        assert ListFor(byUniverse, key) == byUniverse[key];
        var here := CollideUniverse(rs, key, byUniverse[key]);
        cs := cs + here;
      } else {
        assert ListFor(byUniverse, key) == [];
        NoRanges(rs, key);
      }
    }
  }

  lemma NoRanges(rs: seq<Range>, u: byte)
    requires Indices(rs, u, |rs|) == []
    ensures forall c: Collision :: Genuine(rs, c) ==> c.universe != u
  {
    forall c: Collision | Genuine(rs, c) ensures c.universe != u {
      assert c.a !in Indices(rs, u, |rs|);
    }
  }

  /** A reported range is the intersection of the two ranges, and is not empty. */
  lemma ReportIsIntersection(rs: seq<Range>, c: Collision)
    requires Genuine(rs, c) && RangeOk(rs[c.a]) && RangeOk(rs[c.b])
    ensures c.from <= c.to
    ensures forall x: int :: c.from <= x <= c.to <==> InRange(rs[c.a], x) && InRange(rs[c.b], x)
  {
  }

  lemma SharedChannel(r: Range, s: Range, g: int)
    requires RangeOk(r) && RangeOk(s) && Covers(r, g) && Covers(s, g)
    ensures r.universe == s.universe && Overlap(r, s)
  {
    assert g / SIZE == r.universe as int && g / SIZE == s.universe as int;
  }

  /** Items `i` and `j` both drive channel `g`. */
  predicate Shared(items: seq<Item>, i: nat, j: nat, g: int)
    requires ItemsOk(items)
  {
    i < j < |items| && Drives(items[i], g) && Drives(items[j], g)
  }

  /** The compiler reports no collision exactly when no channel is driven by two
      patched items. */
  lemma NoCollisionIffDisjoint(items: seq<Item>, cs: seq<Collision>)
    requires ItemsOk(items) && forall c: Collision :: c in cs <==> Genuine(Occupied(items), c)
    ensures cs == [] <==> forall i, j, g :: !Shared(items, i, j, g)
  {
    if cs != [] {
      var c := cs[0];
      assert c in cs;
      CollisionMeansShared(items, c);
    } else {
      forall i, j, g ensures !Shared(items, i, j, g) {
        if Shared(items, i, j, g) { SharedMeansCollision(items, i, j, g, cs); }
      }
    }
  }

  lemma CollisionMeansShared(items: seq<Item>, c: Collision)
    requires ItemsOk(items) && Genuine(Occupied(items), c)
    ensures exists i, j, g :: Shared(items, i, j, g)
  {
    var rs := Occupied(items);
    OccupiedApart(items);
    var r, s := rs[c.a], rs[c.b];
    assert RangeOk(r) && RangeOk(s) && r.owner != s.owner;
    var g := c.universe as int * SIZE + c.from - 1;
    assert Covers(r, g) && Covers(s, g);
    assert OwnerCovers(rs, r.owner, g) && OwnerCovers(rs, s.owner, g);
    OccupiedExact(items, r.owner, g);
    OccupiedExact(items, s.owner, g);
    if r.owner < s.owner {
      assert Shared(items, r.owner, s.owner, g);
    } else {
      assert Shared(items, s.owner, r.owner, g);
    }
  }

  lemma SharedMeansCollision(items: seq<Item>, i: nat, j: nat, g: int, cs: seq<Collision>)
    requires ItemsOk(items) && Shared(items, i, j, g)
    requires forall c: Collision :: c in cs <==> Genuine(Occupied(items), c)
    ensures cs != []
  {
    var rs := Occupied(items);
    OccupiedApart(items);
    OccupiedExact(items, i, g);
    OccupiedExact(items, j, g);
    var a :| 0 <= a < |rs| && rs[a].owner == i && Covers(rs[a], g);
    var b :| 0 <= b < |rs| && rs[b].owner == j && Covers(rs[b], g);
    SharedChannel(rs[a], rs[b], g);
    var lo, hi := if a < b then a else b, if a < b then b else a;
    var c := Report(rs, rs[a].universe, lo, hi);
    assert Genuine(rs, c);
    assert c in cs;
  }

  /** The check as a whole. */
  method CheckAddresses(items: seq<Item>) returns (cs: seq<Collision>)
    requires ItemsOk(items)
    ensures forall c: Collision :: c in cs <==> Genuine(Occupied(items), c)
    ensures cs == [] <==> forall i, j, g :: !Shared(items, i, j, g)
  {
    var rs := CollectOccupied(items);
    cs := FindCollisions(rs);
    NoCollisionIffDisjoint(items, cs);
  }
}
