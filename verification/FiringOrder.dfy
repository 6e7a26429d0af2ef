/** The order in which a frame of show_control.cpp fires its cues: lowest rank
    first, rank being priority and then activation number. */
module FiringOrder {
  import opened Cues
  import opened Blend

  function RankOf(cue: Cue): Rank {
    Rank(cue.priority, cue.activationSeq)
  }

  predicate Indices(order: seq<nat>, cues: seq<Cue>) {
    forall i :: 0 <= i < |order| ==> order[i] < |cues|
  }

  predicate Distinct(order: seq<nat>) {
    forall i, j :: 0 <= i < j < |order| ==> order[i] != order[j]
  }

  predicate SortedByRank(cues: seq<Cue>, order: seq<nat>)
    requires Indices(order, cues)
  {
    forall i, j :: 0 <= i < j < |order| ==> RankLeq(RankOf(cues[order[i]]), RankOf(cues[order[j]]))
  }

  /** Every active cue once, lowest rank first. */
  ghost predicate IsFiringOrder(cues: seq<Cue>, order: seq<nat>) {
    Indices(order, cues) && Distinct(order) && SortedByRank(cues, order) &&
    forall i :: i in order <==> 0 <= i < |cues| && cues[i].active
  }

  predicate DistinctRanks(cues: seq<Cue>) {
    forall i, j :: 0 <= i < j < |cues| && cues[i].active && cues[j].active ==>
      RankOf(cues[i]) != RankOf(cues[j])
  }

  /** Where two firing orders have agreed so far, what `a` fires next `b` has not
      fired yet. */
  lemma NotYetFired(cues: seq<Cue>, a: seq<nat>, b: seq<nat>, n: nat)
    requires IsFiringOrder(cues, a) && IsFiringOrder(cues, b)
    requires n < |a| && n <= |b| && a[..n] == b[..n]
    ensures n < |b| && RankLeq(RankOf(cues[b[n]]), RankOf(cues[a[n]]))
  {
    forall j | 0 <= j < n ensures a[j] == b[j] {
      assert a[..n][j] == b[..n][j];
    }
    assert a[n] in a && a[n] in b;
    var k :| 0 <= k < |b| && b[k] == a[n];
  }

  /** While sequence numbers are distinct the firing order is determined by the
      ranks alone: any correct sort gives the same one. */
  lemma {:induction false} FiringOrderUnique(cues: seq<Cue>, a: seq<nat>, b: seq<nat>)
    requires IsFiringOrder(cues, a) && IsFiringOrder(cues, b) && DistinctRanks(cues)
    ensures a == b
  {
    var n := 0;
    while n < |a|
      invariant n <= |a| && n <= |b| && a[..n] == b[..n]
    {
      NotYetFired(cues, a, b, n);
      NotYetFired(cues, b, a, n);
      assert a[n] in a && b[n] in b;
      assert a[n] == b[n];
      assert a[..n + 1] == a[..n] + [a[n]] && b[..n + 1] == b[..n] + [b[n]];
      n := n + 1;
    }
    if n < |b| { NotYetFired(cues, b, a, n); }
    assert a[..n] == a && b[..n] == b;
  }

  /** Where cue `x` goes, looking down from position `p`. */
  function InsertionPoint(cues: seq<Cue>, order: seq<nat>, x: nat, p: nat): (q: nat)
    requires x < |cues| && Indices(order, cues) && p <= |order|
    ensures q <= p && (q > 0 ==> RankLeq(RankOf(cues[order[q - 1]]), RankOf(cues[x])))
    ensures forall k :: q <= k < p ==> RankLeq(RankOf(cues[x]), RankOf(cues[order[k]]))
  {
    if p > 0 && !RankLeq(RankOf(cues[order[p - 1]]), RankOf(cues[x])) then InsertionPoint(cues, order, x, p - 1)
    else p
  }

  function InsertedAt(cues: seq<Cue>, order: seq<nat>, x: nat): seq<nat>
    requires x < |cues| && Indices(order, cues)
  {
    var p := InsertionPoint(cues, order, x, |order|);
    order[..p] + [x] + order[p..]
  }

  lemma Inserted(cues: seq<Cue>, order: seq<nat>, p: nat, x: nat)
    requires p <= |order| && x < |cues| && x !in order
    requires Indices(order, cues) && Distinct(order) && SortedByRank(cues, order)
    requires p > 0 ==> RankLeq(RankOf(cues[order[p - 1]]), RankOf(cues[x]))
    requires forall k :: p <= k < |order| ==> RankLeq(RankOf(cues[x]), RankOf(cues[order[k]]))
    ensures var r := order[..p] + [x] + order[p..];
            Indices(r, cues) && Distinct(r) && SortedByRank(cues, r) &&
            forall k :: k in r <==> k == x || k in order
  {
    var r := order[..p] + [x] + order[p..];
    forall i, j | 0 <= i < j < |r|
      ensures r[i] < |cues| && r[j] < |cues|
      ensures r[i] != r[j] && RankLeq(RankOf(cues[r[i]]), RankOf(cues[r[j]]))
    {
      if j < p {
        assert r[i] == order[i] && r[j] == order[j];
      } else if j == p {
        assert r[i] == order[i] && r[j] == x;
        assert i < p - 1 ==> RankLeq(RankOf(cues[order[i]]), RankOf(cues[order[p - 1]]));
      } else {
        assert r[j] == order[j - 1];
        if i < p { assert r[i] == order[i]; }
        else if i > p { assert r[i] == order[i - 1]; }
      }
    }
    assert r[p] == x;
    assert order == order[..p] + order[p..];
  }

  // ---- which cues fire ---------------------------------------------------

  function Fired(cues: seq<Cue>, order: seq<nat>): (f: seq<Cue>)
    requires Indices(order, cues)
    ensures |f| == |order|
  {
    seq(|order|, i requires 0 <= i < |order| => cues[order[i]])
  }

  /** The same active cues, whatever ids they have. */
  ghost predicate SameActive(c1: seq<Cue>, c2: seq<Cue>) {
    forall c: Cue :: c.active ==> (c in c1 <==> c in c2)
  }

  ghost predicate SameCues(f: seq<Cue>, g: seq<Cue>) {
    forall c :: c in f <==> c in g
  }

  predicate StrictlyRanked(f: seq<Cue>) {
    forall i, j :: 0 <= i < j < |f| ==> RankLess(RankOf(f[i]), RankOf(f[j]))
  }

  lemma FiredStrictly(cues: seq<Cue>, order: seq<nat>)
    requires IsFiringOrder(cues, order) && DistinctRanks(cues)
    ensures StrictlyRanked(Fired(cues, order))
    ensures forall c: Cue :: c in Fired(cues, order) <==> c.active && c in cues
  {
    forall i, j | 0 <= i < j < |order| ensures RankLess(RankOf(cues[order[i]]), RankOf(cues[order[j]])) {
      assert order[i] in order && order[j] in order;
    }
    forall c: Cue | c.active && c in cues ensures c in Fired(cues, order) {
      var i :| 0 <= i < |cues| && cues[i] == c;
      assert i in order;
      var k :| 0 <= k < |order| && order[k] == i;
      assert Fired(cues, order)[k] == c;
    }
    forall c | c in Fired(cues, order) ensures c.active && c in cues {
      var k :| 0 <= k < |order| && Fired(cues, order)[k] == c;
      assert order[k] in order;
    }
  }

  /** What `f` fires next `g` has yet to fire. */
  lemma NextFired(f: seq<Cue>, g: seq<Cue>, n: nat)
    requires StrictlyRanked(f) && StrictlyRanked(g) && SameCues(f, g)
    requires n < |f| && n <= |g| && f[..n] == g[..n]
    ensures n < |g| && RankLeq(RankOf(g[n]), RankOf(f[n]))
  {
    assert f[n] in g;
    var k :| 0 <= k < |g| && g[k] == f[n];
    forall j | 0 <= j < n ensures g[j] != f[n] {
      assert f[..n][j] == g[..n][j];
    }
  }

  lemma StrictlyRankedUnique(f: seq<Cue>, g: seq<Cue>)
    requires StrictlyRanked(f) && StrictlyRanked(g) && SameCues(f, g)
    ensures f == g
  {
    var n := 0;
    while n < |f|
      invariant n <= |f| && n <= |g| && f[..n] == g[..n]
    {
      NextFired(f, g, n);
      NextFired(g, f, n);
      SameRankSameCue(f, g, n);
      assert f[..n + 1] == f[..n] + [f[n]] && g[..n + 1] == g[..n] + [g[n]];
      n := n + 1;
    }
    if n < |g| { NextFired(g, f, n); }
    assert f[..n] == f && g[..n] == g;
  }

  lemma SameRankSameCue(f: seq<Cue>, g: seq<Cue>, n: nat)
    requires StrictlyRanked(f) && SameCues(f, g) && n < |f| && n < |g| && RankOf(f[n]) == RankOf(g[n])
    ensures f[n] == g[n]
  {
    assert g[n] in f;
    var k :| 0 <= k < |f| && f[k] == g[n];
  }

  /** While ranks are distinct, the sequence of cues fired depends on the active
      cues alone: not on how they are sorted, not on the ids they have. */
  lemma FiredDetermined(c1: seq<Cue>, c2: seq<Cue>, o1: seq<nat>, o2: seq<nat>)
    requires IsFiringOrder(c1, o1) && DistinctRanks(c1) && IsFiringOrder(c2, o2) && DistinctRanks(c2)
    requires SameActive(c1, c2)
    ensures Fired(c1, o1) == Fired(c2, o2)
  {
    FiredStrictly(c1, o1);
    FiredStrictly(c2, o2);
    StrictlyRankedUnique(Fired(c1, o1), Fired(c2, o2));
  }

  // ---- when the order is determined --------------------------------------

  /** Cues below `n` that are active, in firing order. */
  ghost predicate OrdersBelow(cues: seq<Cue>, order: seq<nat>, n: nat) {
    Indices(order, cues) && Distinct(order) && SortedByRank(cues, order) &&
    forall i :: i in order <==> 0 <= i < n && i < |cues| && cues[i].active
  }

  lemma InsertedBelow(cues: seq<Cue>, front: seq<nat>, x: nat)
    requires x < |cues| && cues[x].active && OrdersBelow(cues, front, x)
    ensures OrdersBelow(cues, InsertedAt(cues, front, x), x + 1)
  {
    Inserted(cues, front, InsertionPoint(cues, front, x, |front|), x);
  }

  lemma {:induction false} OrderExists(cues: seq<Cue>, n: nat) returns (order: seq<nat>)
    requires n <= |cues|
    ensures OrdersBelow(cues, order, n)
  {
    if n == 0 {
      order := [];
    } else {
      order := OrderExists(cues, n - 1);
      if cues[n - 1].active {
        InsertedBelow(cues, order, n - 1);
        order := InsertedAt(cues, order, n - 1);
      }
    }
  }

  lemma ExchangedMembers(order: seq<nat>, p: nat, q: nat)
    requires p < q < |order|
    ensures forall i :: i in order[p := order[q]][q := order[p]] <==> i in order
  {
    var other := order[p := order[q]][q := order[p]];
    forall i | i in order ensures i in other {
      var k :| 0 <= k < |order| && order[k] == i;
      assert other[if k == p then q else if k == q then p else k] == i;
    }
  }

  lemma ExchangedRanks(cues: seq<Cue>, order: seq<nat>, p: nat, q: nat)
    requires Indices(order, cues) && SortedByRank(cues, order) && p < q < |order|
    requires RankOf(cues[order[p]]) == RankOf(cues[order[q]])
    ensures Indices(order[p := order[q]][q := order[p]], cues)
    ensures SortedByRank(cues, order[p := order[q]][q := order[p]])
  {
    var other := order[p := order[q]][q := order[p]];
    forall k | 0 <= k < |other| ensures other[k] < |cues| && RankOf(cues[other[k]]) == RankOf(cues[order[k]]) {}
  }

  lemma Exchanged(cues: seq<Cue>, order: seq<nat>, p: nat, q: nat)
    requires IsFiringOrder(cues, order) && p < q < |order|
    requires RankOf(cues[order[p]]) == RankOf(cues[order[q]])
    ensures IsFiringOrder(cues, order[p := order[q]][q := order[p]])
    ensures order[p := order[q]][q := order[p]] != order
  {
    ExchangedMembers(order, p, q);
    ExchangedRanks(cues, order, p, q);
    assert order[p := order[q]][q := order[p]][p] != order[p];
  }

  lemma EqualRanksTwoOrders(cues: seq<Cue>, i: nat, j: nat) returns (a: seq<nat>, b: seq<nat>)
    requires i < j < |cues| && cues[i].active && cues[j].active && RankOf(cues[i]) == RankOf(cues[j])
    ensures IsFiringOrder(cues, a) && IsFiringOrder(cues, b) && a != b
  {
    a := OrderExists(cues, |cues|);
    assert i in a && j in a;
    var p :| 0 <= p < |a| && a[p] == i;
    var q :| 0 <= q < |a| && a[q] == j;
    if p < q {
      Exchanged(cues, a, p, q);
      b := a[p := a[q]][q := a[p]];
    } else {
      Exchanged(cues, a, q, p);
      b := a[q := a[p]][p := a[q]];
    }
  }

  /** The firing order is determined exactly when the active cues have pairwise
      different ranks. */
  lemma OrderUniqueIff(cues: seq<Cue>)
    ensures (forall a, b :: IsFiringOrder(cues, a) && IsFiringOrder(cues, b) ==> a == b) <==> DistinctRanks(cues)
  {
    if DistinctRanks(cues) {
      forall a, b | IsFiringOrder(cues, a) && IsFiringOrder(cues, b) ensures a == b {
        FiringOrderUnique(cues, a, b);
      }
    } else {
      var i, j :| 0 <= i < j < |cues| && cues[i].active && cues[j].active && RankOf(cues[i]) == RankOf(cues[j]);
      var a, b := EqualRanksTwoOrders(cues, i, j);
    }
  }
}
