/** What an emitted intent is worth, said of the cues that play and of what their
    effects ask for at that time. */
module EmittedLevels {
  import opened Cues
  import opened Blend
  import opened FiringOrder
  import opened ShowControl

  // ---- who asks for what -------------------------------------------------

  /** Intent `k` of the cue's `j`-th effect at time `t`. */
  ghost predicate AskedAt(cue: Cue, t: real, fx: Effects, j: int, k: int, ci: CapIntent) {
    0 <= j < |cue.effects| && 0 <= k < |fx(cue.effects[j], t).caps| && fx(cue.effects[j], t).caps[k] == ci
  }

  ghost predicate Asks(cue: Cue, t: real, fx: Effects, ci: CapIntent) {
    exists j, k :: AskedAt(cue, t, fx, j, k, ci)
  }

  /** An active cue of positive weight, one of whose effects asks for `ci`. */
  ghost predicate Plays(cues: seq<Cue>, t: real, fx: Effects, cue: Cue, ci: CapIntent) {
    cue in cues && cue.active && WeightAndAlive(cue, t).alive && WeightAndAlive(cue, t).w > 0.0 && Asks(cue, t, fx, ci)
  }

  ghost predicate PlaysFor(cues: seq<Cue>, t: real, fx: Effects, cue: Cue, ci: CapIntent, fixture: nat, cap: Capability) {
    Plays(cues, t, fx, cue, ci) && ci.fixtureId == fixture && ci.cap == cap
  }

  ghost predicate AlwaysBlended(cues: seq<Cue>, t: real, fx: Effects, fixture: nat, cap: Capability) {
    forall cue, ci :: PlaysFor(cues, t, fx, cue, ci, fixture, cap) ==> Blended(ci)
  }

  ghost predicate NeverBlended(cues: seq<Cue>, t: real, fx: Effects, fixture: nat, cap: Capability) {
    forall cue, ci :: PlaysFor(cues, t, fx, cue, ci, fixture, cap) ==> !Blended(ci)
  }

  /** A linear write of Dimmer, a colour, ShutterStrobe, Fog or Fan. */
  predicate Blended(ci: CapIntent) {
    !ci.sel.hasName && ci.sel.rangeIndex < 0 && (ci.cap <= 9 || ci.cap == 12 || ci.cap == 16 || ci.cap == 17)
  }

  /** The cue fires before the other, or at the same rank. */
  predicate NotAbove(a: Cue, b: Cue) {
    a.priority < b.priority || (a.priority == b.priority && a.activationSeq <= b.activationSeq)
  }

  // ---- the stream --------------------------------------------------------

  ghost predicate GatheredAt(effects: seq<nat>, t: real, fx: Effects, j: int, ci: CapIntent) {
    0 <= j < |effects| && ci in fx(effects[j], t).caps
  }

  lemma {:induction false} GatheredMembers(effects: seq<nat>, t: real, fx: Effects, ci: CapIntent)
    ensures ci in Gather(effects, t, fx).caps <==> exists j :: GatheredAt(effects, t, fx, j, ci)
  {
    if effects == [] {
    } else {
      var front, n := effects[..|effects| - 1], |effects| - 1;
      GatheredMembers(front, t, fx, ci);
      if ci in fx(effects[n], t).caps { assert GatheredAt(effects, t, fx, n, ci); }
      if ci in Gather(front, t, fx).caps {
        var j :| GatheredAt(front, t, fx, j, ci);
        assert GatheredAt(effects, t, fx, j, ci);
      }
      if j :| GatheredAt(effects, t, fx, j, ci) {
        if j < n { assert GatheredAt(front, t, fx, j, ci); }
      }
    }
  }

  lemma AsksGathered(cue: Cue, t: real, fx: Effects, ci: CapIntent)
    ensures Asks(cue, t, fx, ci) <==> ci in Gather(cue.effects, t, fx).caps
  {
    GatheredMembers(cue.effects, t, fx, ci);
    if j, k :| AskedAt(cue, t, fx, j, k, ci) { assert GatheredAt(cue.effects, t, fx, j, ci); }
    if j :| GatheredAt(cue.effects, t, fx, j, ci) {
      var caps := fx(cue.effects[j], t).caps;
      var k :| 0 <= k < |caps| && caps[k] == ci;
      assert AskedAt(cue, t, fx, j, k, ci);
    }
  }

  /** What a playing cue's intent brings to the merge. */
  function Brought(cue: Cue, t: real, ci: CapIntent): CapContribution {
    CapContribution(ci, if Blended(ci) then WeightAndAlive(cue, t).w * ci.norm01 else ci.norm01,
                    Rank(cue.priority, cue.activationSeq))
  }

  ghost predicate Brings(cue: Cue, t: real, fx: Effects, ci: CapIntent, c: CapContribution) {
    cue.active && WeightAndAlive(cue, t).alive && WeightAndAlive(cue, t).w > 0.0 && Asks(cue, t, fx, ci) &&
    c == Brought(cue, t, ci)
  }

  lemma {:induction false} CueMembers(cue: Cue, t: real, fx: Effects, c: CapContribution)
    ensures c in CueCaps(cue, t, fx) <==> Brings(cue, t, fx, c.intent, c)
  {
    AsksGathered(cue, t, fx, c.intent);
    var caps, all := Gather(cue.effects, t, fx).caps, CueCaps(cue, t, fx);
    if Contributes(cue, t) {
      assert |all| == |caps| && forall i :: 0 <= i < |caps| ==> all[i] == Brought(cue, t, caps[i]);
      InImage(caps, all, cue, t, c);
    }
  }

  lemma {:induction false} InImage(caps: seq<CapIntent>, all: seq<CapContribution>, cue: Cue, t: real, c: CapContribution)
    requires |all| == |caps| && forall i :: 0 <= i < |caps| ==> all[i] == Brought(cue, t, caps[i])
    ensures c in all <==> c.intent in caps && c == Brought(cue, t, c.intent)
  {
    if c in all {
      var i :| 0 <= i < |all| && all[i] == c;
      assert c == Brought(cue, t, caps[i]);
    }
    if c.intent in caps && c == Brought(cue, t, c.intent) {
      var i :| 0 <= i < |caps| && caps[i] == c.intent;
      assert all[i] == c;
    }
  }

  ghost predicate FiredBrings(cues: seq<Cue>, order: seq<nat>, t: real, fx: Effects, n: int, c: CapContribution) {
    0 <= n < |order| && order[n] < |cues| && Brings(cues[order[n]], t, fx, c.intent, c)
  }

  lemma {:induction false} StreamMembers(cues: seq<Cue>, order: seq<nat>, t: real, fx: Effects, c: CapContribution)
    requires Indices(order, cues)
    ensures c in CapStream(cues, order, t, fx) <==> exists n :: FiredBrings(cues, order, t, fx, n, c)
  {
    if order == [] {
    } else {
      var last := |order| - 1;
      var front := order[..last];
      StreamMembers(cues, front, t, fx, c);
      CueMembers(cues[order[last]], t, fx, c);
      if c in CueCaps(cues[order[last]], t, fx) { assert FiredBrings(cues, order, t, fx, last, c); }
      if n :| FiredBrings(cues, front, t, fx, n, c) { assert FiredBrings(cues, order, t, fx, n, c); }
      if n :| FiredBrings(cues, order, t, fx, n, c) {
        if n < last { assert FiredBrings(cues, front, t, fx, n, c); }
      }
    }
  }

  lemma {:induction false} ForKeyMembers(cs: seq<CapContribution>, k: (nat, Capability), c: CapContribution)
    ensures c in ForKey(cs, k) <==> c in cs && c.Key() == k
  {
    if cs == [] {
    } else {
      ForKeyMembers(cs[..|cs| - 1], k, c);
      assert cs == cs[..|cs| - 1] + [cs[|cs| - 1]];
    }
  }

  /** The contributions to a key are what the playing cues bring to it. */
  lemma PlayedIn(cues: seq<Cue>, order: seq<nat>, t: real, fx: Effects, cue: Cue, ci: CapIntent)
    requires IsFiringOrder(cues, order) && Plays(cues, t, fx, cue, ci)
    ensures Brought(cue, t, ci) in ForKey(CapStream(cues, order, t, fx), KeyOf(ci))
  {
    var i :| 0 <= i < |cues| && cues[i] == cue;
    assert i in order;
    var n :| 0 <= n < |order| && order[n] == i;
    var c := Brought(cue, t, ci);
    assert FiredBrings(cues, order, t, fx, n, c);
    StreamMembers(cues, order, t, fx, c);
    ForKeyMembers(CapStream(cues, order, t, fx), KeyOf(ci), c);
  }

  lemma PlayedBy(cues: seq<Cue>, order: seq<nat>, t: real, fx: Effects, k: (nat, Capability), c: CapContribution)
      returns (cue: Cue)
    requires IsFiringOrder(cues, order) && c in ForKey(CapStream(cues, order, t, fx), k)
    ensures PlaysFor(cues, t, fx, cue, c.intent, k.0, k.1) && c == Brought(cue, t, c.intent)
  {
    ForKeyMembers(CapStream(cues, order, t, fx), k, c);
    StreamMembers(cues, order, t, fx, c);
    var n :| FiredBrings(cues, order, t, fx, n, c);
    assert order[n] in order;
    cue := cues[order[n]];
  }

  lemma BroughtAsBlended(cue: Cue, t: real, ci: CapIntent)
    ensures Brought(cue, t, ci).IsHtp() == Blended(ci)
  {
  }

  // ---- the emitted value -------------------------------------------------

  /** Some playing cue's intent, times the cue's weight, is the value. */
  ghost predicate IsSomeProduct(v: real, cues: seq<Cue>, t: real, fx: Effects, fixture: nat, cap: Capability) {
    exists cue, ci :: PlaysFor(cues, t, fx, cue, ci, fixture, cap) && v == WeightAndAlive(cue, t).w * ci.norm01
  }

  /** Where only blended intents reach an emitted key, its value is a playing cue's
      weight times what its effect asks for, the highest such product, linearly. */
  lemma EmittedProduct(cues: seq<Cue>, order: seq<nat>, t: real, fx: Effects, out: seq<CapIntent>, i: nat)
    requires IsFiringOrder(cues, order) && EmitsCaps(out, CapStream(cues, order, t, fx)) && i < |out|
    requires AlwaysBlended(cues, t, fx, out[i].fixtureId, out[i].cap)
    ensures IsSomeProduct(out[i].norm01, cues, t, fx, out[i].fixtureId, out[i].cap)
    ensures forall cue, ci :: PlaysFor(cues, t, fx, cue, ci, out[i].fixtureId, out[i].cap) ==>
              WeightAndAlive(cue, t).w * ci.norm01 <= out[i].norm01
    ensures !out[i].sel.hasName && out[i].sel.rangeIndex < 0
  {
    var k := KeyOf(out[i]);
    var mine := ForKey(CapStream(cues, order, t, fx), k);
    EmittedValue(cues, order, t, fx, out, i);
    forall c | c in mine ensures c.IsHtp() {
      var cue := PlayedBy(cues, order, t, fx, k, c);
      BroughtAsBlended(cue, t, c.intent);
    }
    var m :| 0 <= m < |mine| && mine[m].value == out[i].norm01;
    var cue := PlayedBy(cues, order, t, fx, k, mine[m]);
    BroughtAsBlended(cue, t, mine[m].intent);
    forall cue, ci | PlaysFor(cues, t, fx, cue, ci, out[i].fixtureId, out[i].cap)
      ensures WeightAndAlive(cue, t).w * ci.norm01 <= out[i].norm01
    {
      PlayedIn(cues, order, t, fx, cue, ci);
    }
  }

  /** `ci` is asked for by a playing cue, and no playing cue fires above it for that
      key. */
  ghost predicate IsTopIntent(ci: CapIntent, cues: seq<Cue>, t: real, fx: Effects) {
    exists cue :: Plays(cues, t, fx, cue, ci) && Tops(cue, cues, t, fx, ci.fixtureId, ci.cap)
  }

  ghost predicate Tops(cue: Cue, cues: seq<Cue>, t: real, fx: Effects, fixture: nat, cap: Capability) {
    forall other, ci :: PlaysFor(cues, t, fx, other, ci, fixture, cap) ==> NotAbove(other, cue)
  }

  lemma {:induction false} NoneAbove(cues: seq<Cue>, order: seq<nat>, t: real, fx: Effects, cue: Cue,
                                     fixture: nat, cap: Capability, r: Rank)
    requires IsFiringOrder(cues, order) && r == Rank(cue.priority, cue.activationSeq)
    requires forall c :: c in ForKey(CapStream(cues, order, t, fx), (fixture, cap)) ==> RankLeq(c.rank, r)
    ensures Tops(cue, cues, t, fx, fixture, cap)
  {
    forall other, ci | PlaysFor(cues, t, fx, other, ci, fixture, cap) ensures NotAbove(other, cue) {
      PlayedIn(cues, order, t, fx, other, ci);
      assert RankLeq(Brought(other, t, ci).rank, r);
    }
  }

  lemma {:induction false} NoneBlended(cues: seq<Cue>, order: seq<nat>, t: real, fx: Effects, fixture: nat, cap: Capability)
    requires IsFiringOrder(cues, order)
    requires NeverBlended(cues, t, fx, fixture, cap)
    ensures forall c :: c in ForKey(CapStream(cues, order, t, fx), (fixture, cap)) ==> !c.IsHtp()
  {
    forall c | c in ForKey(CapStream(cues, order, t, fx), (fixture, cap)) ensures !c.IsHtp() {
      var cue := PlayedBy(cues, order, t, fx, (fixture, cap), c);
      BroughtAsBlended(cue, t, c.intent);
    }
  }

  /** `last` is the last of these contributions, ranked highest, with `ci`'s value. */
  predicate StandsLast(mine: seq<CapContribution>, ci: CapIntent, last: CapContribution) {
    mine != [] && last == mine[|mine| - 1] && last in mine && !last.IsHtp() &&
    last.value == ci.norm01 && last.intent.sel == ci.sel && forall c :: c in mine ==> RankLeq(c.rank, last.rank)
  }

  lemma {:induction false} LastOfPure(mine: seq<CapContribution>, ci: CapIntent) returns (last: CapContribution)
    requires PureCases(mine, ci.norm01, ci.sel) && forall c :: c in mine ==> !c.IsHtp()
    ensures StandsLast(mine, ci, last)
  {
    last := mine[|mine| - 1];
  }

  lemma {:induction false} LastStands(cues: seq<Cue>, order: seq<nat>, t: real, fx: Effects, out: seq<CapIntent>, i: nat)
      returns (last: CapContribution)
    requires IsFiringOrder(cues, order) && EmitsCaps(out, CapStream(cues, order, t, fx)) && i < |out|
    requires NeverBlended(cues, t, fx, out[i].fixtureId, out[i].cap)
    ensures StandsLast(ForKey(CapStream(cues, order, t, fx), KeyOf(out[i])), out[i], last)
  {
    EmittedValue(cues, order, t, fx, out, i);
    NoneBlended(cues, order, t, fx, out[i].fixtureId, out[i].cap);
    last := LastOfPure(ForKey(CapStream(cues, order, t, fx), KeyOf(out[i])), out[i]);
  }

  /** A contribution that is not blended brings its intent's own value. */
  lemma {:induction false} LastUnscaled(cues: seq<Cue>, order: seq<nat>, t: real, fx: Effects, last: CapContribution, ci: CapIntent)
      returns (cue: Cue)
    requires IsFiringOrder(cues, order) && StandsLast(ForKey(CapStream(cues, order, t, fx), KeyOf(ci)), ci, last)
    ensures last.intent == ci && Plays(cues, t, fx, cue, ci) && last.rank == Rank(cue.priority, cue.activationSeq)
  {
    cue := PlayedBy(cues, order, t, fx, KeyOf(ci), last);
    BroughtAsBlended(cue, t, last.intent);
  }

  /** Where no blended intent reaches an emitted key, what is emitted is an intent as
      an effect asked for it, unscaled, of a playing cue that none plays above. */
  lemma {:induction false} EmittedIntent(cues: seq<Cue>, order: seq<nat>, t: real, fx: Effects, out: seq<CapIntent>, i: nat)
    requires IsFiringOrder(cues, order) && EmitsCaps(out, CapStream(cues, order, t, fx)) && i < |out|
    requires NeverBlended(cues, t, fx, out[i].fixtureId, out[i].cap)
    ensures IsTopIntent(out[i], cues, t, fx)
  {
    var last := LastStands(cues, order, t, fx, out, i);
    var cue := LastUnscaled(cues, order, t, fx, last, out[i]);
    NoneAbove(cues, order, t, fx, cue, out[i].fixtureId, out[i].cap, last.rank);
  }

  // ---- the last intent ---------------------------------------------------

  predicate ForThe(ci: CapIntent, fixture: nat, cap: Capability) {
    ci.fixtureId == fixture && ci.cap == cap
  }

  /** Position `p` holds the last intent for that capability. */
  predicate LastIn(caps: seq<CapIntent>, fixture: nat, cap: Capability, p: int) {
    0 <= p < |caps| && ForThe(caps[p], fixture, cap) && forall q :: p < q < |caps| ==> !ForThe(caps[q], fixture, cap)
  }

  predicate NoneIn(caps: seq<CapIntent>, fixture: nat, cap: Capability) {
    forall q :: 0 <= q < |caps| ==> !ForThe(caps[q], fixture, cap)
  }

  /** `ci` is the last of effect `j`'s intents for the capability, and later effects
      have none. */
  ghost predicate LastAsked(effects: seq<nat>, t: real, fx: Effects, fixture: nat, cap: Capability, j: int, ci: CapIntent) {
    0 <= j < |effects| &&
    (exists k :: LastIn(fx(effects[j], t).caps, fixture, cap, k) && fx(effects[j], t).caps[k] == ci) &&
    forall j' :: j < j' < |effects| ==> NoneIn(fx(effects[j'], t).caps, fixture, cap)
  }

  lemma SplitLast(x: seq<CapIntent>, y: seq<CapIntent>, fixture: nat, cap: Capability, p: int)
    requires LastIn(x + y, fixture, cap, p)
    ensures p >= |x| ==> LastIn(y, fixture, cap, p - |x|) && y[p - |x|] == (x + y)[p]
    ensures p < |x| ==> LastIn(x, fixture, cap, p) && x[p] == (x + y)[p] && NoneIn(y, fixture, cap)
  {
    assert forall q :: 0 <= q < |y| ==> y[q] == (x + y)[|x| + q];
    assert forall q :: 0 <= q < |x| ==> x[q] == (x + y)[q];
  }

  lemma {:induction false} LastGathered(effects: seq<nat>, t: real, fx: Effects, fixture: nat, cap: Capability, p: int)
      returns (j: int)
    requires LastIn(Gather(effects, t, fx).caps, fixture, cap, p)
    ensures LastAsked(effects, t, fx, fixture, cap, j, Gather(effects, t, fx).caps[p])
  {
    var n := |effects| - 1;
    var front := effects[..n];
    var x, y := Gather(front, t, fx).caps, fx(effects[n], t).caps;
    SplitLast(x, y, fixture, cap, p);
    if p >= |x| {
      j := n;
    } else {
      j := LastGathered(front, t, fx, fixture, cap, p);
    }
  }

  /** The cue fired `n`-th plays, and asks last for `ci`. */
  ghost predicate PlaysLast(cue: Cue, t: real, fx: Effects, fixture: nat, cap: Capability, ci: CapIntent) {
    cue.active && WeightAndAlive(cue, t).alive && WeightAndAlive(cue, t).w > 0.0 &&
    exists j :: LastAsked(cue.effects, t, fx, fixture, cap, j, ci)
  }

  ghost predicate Silent(cue: Cue, t: real, fx: Effects, fixture: nat, cap: Capability) {
    cue.active && WeightAndAlive(cue, t).alive && WeightAndAlive(cue, t).w > 0.0 ==>
      forall ci :: Asks(cue, t, fx, ci) ==> !ForThe(ci, fixture, cap)
  }

  /** `ci` is the last intent for the capability of the last fired cue that has one. */
  ghost predicate FiredLast(cues: seq<Cue>, order: seq<nat>, t: real, fx: Effects, fixture: nat, cap: Capability,
                            n: int, ci: CapIntent)
    requires Indices(order, cues)
  {
    0 <= n < |order| && PlaysLast(cues[order[n]], t, fx, fixture, cap, ci) &&
    forall m :: n < m < |order| ==> Silent(cues[order[m]], t, fx, fixture, cap)
  }

  lemma {:induction false} LastForKey(cs: seq<CapContribution>, k: (nat, Capability)) returns (p: int)
    requires ForKey(cs, k) != []
    ensures 0 <= p < |cs| && cs[p] == ForKey(cs, k)[|ForKey(cs, k)| - 1] && cs[p].Key() == k
    ensures forall q :: p < q < |cs| ==> cs[q].Key() != k
  {
    var n := |cs| - 1;
    if cs[n].Key() == k {
      p := n;
    } else {
      p := LastForKey(cs[..n], k);
    }
  }

  lemma {:induction false} CueLast(cue: Cue, t: real, fx: Effects, k: (nat, Capability))
    ensures if Reached(CueCaps(cue, t, fx), k) then PlaysLast(cue, t, fx, k.0, k.1, LastIntent(CueCaps(cue, t, fx), k))
            else Silent(cue, t, fx, k.0, k.1)
  {
    var caps, all := Gather(cue.effects, t, fx).caps, CueCaps(cue, t, fx);
    if ForKey(all, k) == [] {
      forall ci | Contributes(cue, t) && Asks(cue, t, fx, ci) ensures !ForThe(ci, k.0, k.1) {
        CueMembers(cue, t, fx, Brought(cue, t, ci));
        ForKeyMembers(all, k, Brought(cue, t, ci));
      }
    } else {
      var p := LastForKey(all, k);
      assert caps[p] == all[p].intent;
      assert forall q :: 0 <= q < |caps| ==> KeyOf(caps[q]) == all[q].Key();
      assert LastIn(caps, k.0, k.1, p);
      var j := LastGathered(cue.effects, t, fx, k.0, k.1, p);
    }
  }

  predicate Reached(cs: seq<CapContribution>, k: (nat, Capability)) {
    ForKey(cs, k) != []
  }

  function LastIntent(cs: seq<CapContribution>, k: (nat, Capability)): CapIntent
    requires Reached(cs, k)
  {
    ForKey(cs, k)[|ForKey(cs, k)| - 1].intent
  }

  lemma {:induction false} LastPush(cs: seq<CapContribution>, c: CapContribution, k: (nat, Capability))
    ensures Reached(cs + [c], k) <==> c.Key() == k || Reached(cs, k)
    ensures Reached(cs + [c], k) ==> LastIntent(cs + [c], k) == if c.Key() == k then c.intent else LastIntent(cs, k)
  {
    ForKeyPush(cs, c, k);
  }

  lemma {:induction false} LastOfTwo(x: seq<CapContribution>, y: seq<CapContribution>, k: (nat, Capability))
    ensures Reached(x + y, k) <==> Reached(x, k) || Reached(y, k)
    ensures Reached(x + y, k) ==> LastIntent(x + y, k) == if Reached(y, k) then LastIntent(y, k) else LastIntent(x, k)
  {
    if y == [] {
      assert x + y == x;
    } else {
      var front, last := y[..|y| - 1], y[|y| - 1];
      LastOfTwo(x, front, k);
      LastPush(front, last, k);
      LastPush(x + front, last, k);
      assert y == front + [last] && x + y == (x + front) + [last];
    }
  }

  lemma {:induction false} StreamLast(cues: seq<Cue>, order: seq<nat>, t: real, fx: Effects, k: (nat, Capability)) returns (n: int)
    requires Indices(order, cues) && Reached(CapStream(cues, order, t, fx), k)
    ensures FiredLast(cues, order, t, fx, k.0, k.1, n, LastIntent(CapStream(cues, order, t, fx), k))
  {
    var last := |order| - 1;
    var front, id := order[..last], order[last];
    assert order == front + [id];
    var x, y := CapStream(cues, front, t, fx), CueCaps(cues[id], t, fx);
    LastOfTwo(x, y, k);
    CueLast(cues[id], t, fx, k);
    if Reached(y, k) {
      n := last;
    } else {
      n := StreamLast(cues, front, t, fx, k);
      StillLast(cues, front, id, order, t, fx, k.0, k.1, n, LastIntent(x, k));
    }
  }

  lemma {:induction false} StillLast(cues: seq<Cue>, front: seq<nat>, id: nat, order: seq<nat>, t: real, fx: Effects,
                                     fixture: nat, cap: Capability, n: int, ci: CapIntent)
    requires Indices(order, cues) && order == front + [id] && Indices(front, cues)
    requires FiredLast(cues, front, t, fx, fixture, cap, n, ci) && id < |cues| && Silent(cues[id], t, fx, fixture, cap)
    ensures FiredLast(cues, order, t, fx, fixture, cap, n, ci)
  {
    forall m | n < m < |order| ensures Silent(cues[order[m]], t, fx, fixture, cap) {
      if m < |front| { assert order[m] == front[m]; }
    }
  }

  lemma {:induction false} EmittedIsLast(cues: seq<Cue>, order: seq<nat>, t: real, fx: Effects, out: seq<CapIntent>, i: nat)
    requires IsFiringOrder(cues, order) && EmitsCaps(out, CapStream(cues, order, t, fx)) && i < |out|
    requires NeverBlended(cues, t, fx, out[i].fixtureId, out[i].cap)
    ensures Reached(CapStream(cues, order, t, fx), KeyOf(out[i]))
    ensures LastIntent(CapStream(cues, order, t, fx), KeyOf(out[i])) == out[i]
  {
    var last := LastStands(cues, order, t, fx, out, i);
    var cue := LastUnscaled(cues, order, t, fx, last, out[i]);
    ReadLast(CapStream(cues, order, t, fx), KeyOf(out[i]), out[i], last);
  }

  lemma {:induction false} ReadLast(cs: seq<CapContribution>, k: (nat, Capability), ci: CapIntent, last: CapContribution)
    requires StandsLast(ForKey(cs, k), ci, last) && last.intent == ci
    ensures Reached(cs, k) && LastIntent(cs, k) == ci
  {
  }

  ghost predicate SomeFiredLast(cues: seq<Cue>, order: seq<nat>, t: real, fx: Effects, fixture: nat, cap: Capability, ci: CapIntent)
    requires Indices(order, cues)
  {
    exists n :: FiredLast(cues, order, t, fx, fixture, cap, n, ci)
  }

  /** And it is the last one that cue asks for: no later cue in the firing order, no
      later effect of the cue and no later intent of the effect is for that key. */
  lemma {:induction false} EmittedLatest(cues: seq<Cue>, order: seq<nat>, t: real, fx: Effects, out: seq<CapIntent>, i: nat)
    requires IsFiringOrder(cues, order) && EmitsCaps(out, CapStream(cues, order, t, fx)) && i < |out|
    requires NeverBlended(cues, t, fx, out[i].fixtureId, out[i].cap)
    ensures SomeFiredLast(cues, order, t, fx, out[i].fixtureId, out[i].cap, out[i])
  {
    EmittedIsLast(cues, order, t, fx, out, i);
    var n := StreamLast(cues, order, t, fx, KeyOf(out[i]));
  }

  // ---- blended and other writes together ---------------------------------

  /** Whatever mixture reaches a key, what is emitted is what taking the contributions
      to it one by one leaves, and each of them is what a playing cue brings. */
  lemma {:induction false} EmittedIsMerge(cues: seq<Cue>, order: seq<nat>, t: real, fx: Effects, out: seq<CapIntent>, i: nat)
    requires IsFiringOrder(cues, order) && EmitsCaps(out, CapStream(cues, order, t, fx)) && i < |out|
    ensures var mine := ForKey(CapStream(cues, order, t, fx), KeyOf(out[i]));
            mine != [] && Showing(out[i].norm01, out[i].sel) == MergedAll(mine)
  {
    StreamReaches(CapStream(cues, order, t, fx), out, i);
    BlendIsMerge(ForKey(CapStream(cues, order, t, fx), KeyOf(out[i])), out[i].norm01, out[i].sel);
  }

  lemma {:induction false} StreamReaches(stream: seq<CapContribution>, out: seq<CapIntent>, i: nat)
    requires EmitsCaps(out, stream) && i < |out|
    ensures ForKey(stream, KeyOf(out[i])) != []
  {
    WrittenKey(stream, i);
  }

  /** Contribution `k` to a key is some playing cue's: its intent, weighted if blended. */
  lemma {:induction false} ContributionIsBrought(cues: seq<Cue>, order: seq<nat>, t: real, fx: Effects,
                                                 fixture: nat, cap: Capability, k: nat) returns (cue: Cue)
    requires IsFiringOrder(cues, order) && k < |ForKey(CapStream(cues, order, t, fx), (fixture, cap))|
    ensures var c := ForKey(CapStream(cues, order, t, fx), (fixture, cap))[k];
            PlaysFor(cues, t, fx, cue, c.intent, fixture, cap) &&
            c.value == if Blended(c.intent) then WeightAndAlive(cue, t).w * c.intent.norm01 else c.intent.norm01
  {
    var mine := ForKey(CapStream(cues, order, t, fx), (fixture, cap));
    cue := PlayedBy(cues, order, t, fx, (fixture, cap), mine[k]);
  }
}
