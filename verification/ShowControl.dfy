/** ShowController of show_control.cpp: the mutable controller over the cue
    lifecycle of Cues and the merge of Blend. Effects are pure functions of time
    that return intents. */
module ShowControl {
  import opened Cues
  import opened Reals
  import opened Blend
  import opened FiringOrder

  datatype Output = Output(caps: seq<CapIntent>, aims: seq<AimIntent>)

  /** What effect `id` appends at time `t`. */
  type Effects = (nat, real) -> Output

  // ---- the contributions of a frame --------------------------------------

  function Gather(effects: seq<nat>, t: real, fx: Effects): Output {
    if effects == [] then Output([], [])
    else
      var o := Gather(effects[..|effects| - 1], t, fx);
      var p := fx(effects[|effects| - 1], t);
      Output(o.caps + p.caps, o.aims + p.aims)
  }

  function CueCaps(cue: Cue, t: real, fx: Effects): (r: seq<CapContribution>)
    ensures forall c :: c in r ==> c.rank == RankOf(cue)
  {
    if !Contributes(cue, t) then []
    else
      var caps := Gather(cue.effects, t, fx).caps;
      seq(|caps|, i requires 0 <= i < |caps| => Contribution(caps[i], WeightAndAlive(cue, t).w, RankOf(cue)))
  }

  function CueAims(cue: Cue, t: real, fx: Effects): (r: seq<AimContribution>)
    ensures forall a :: a in r ==> a.rank == RankOf(cue)
  {
    if !Contributes(cue, t) then []
    else
      var aims := Gather(cue.effects, t, fx).aims;
      seq(|aims|, i requires 0 <= i < |aims| => AimContribution(aims[i], RankOf(cue)))
  }

  function CapStream(cues: seq<Cue>, order: seq<nat>, t: real, fx: Effects): seq<CapContribution>
    requires Indices(order, cues)
  {
    if order == [] then []
    else CapStream(cues, order[..|order| - 1], t, fx) + CueCaps(cues[order[|order| - 1]], t, fx)
  }

  function AimStream(cues: seq<Cue>, order: seq<nat>, t: real, fx: Effects): seq<AimContribution>
    requires Indices(order, cues)
  {
    if order == [] then []
    else AimStream(cues, order[..|order| - 1], t, fx) + CueAims(cues[order[|order| - 1]], t, fx)
  }

  /** A frame's intents come in rank order, so "the last intent" below is that of
      the highest-ranked cue. */
  lemma {:induction false} StreamRanked(cues: seq<Cue>, order: seq<nat>, t: real, fx: Effects)
    requires Indices(order, cues) && SortedByRank(cues, order)
    ensures Ranked(CapStream(cues, order, t, fx))
    ensures forall c :: c in CapStream(cues, order, t, fx) ==>
              order != [] && RankLeq(c.rank, RankOf(cues[order[|order| - 1]]))
  {
    if order == [] {
    } else {
      var front, last := order[..|order| - 1], order[|order| - 1];
      StreamRanked(cues, front, t, fx);
      var a, b := CapStream(cues, front, t, fx), CueCaps(cues[last], t, fx);
      forall c | c in a ensures RankLeq(c.rank, RankOf(cues[last])) {
        assert RankLeq(RankOf(cues[front[|front| - 1]]), RankOf(cues[last]));
      }
      forall i, j | 0 <= i < j < |a + b| ensures RankLeq((a + b)[i].rank, (a + b)[j].rank) {
        if j >= |a| {
          assert (a + b)[j] in b;
          if i < |a| { assert (a + b)[i] in a; } else { assert (a + b)[i] in b; }
        }
      }
    }
  }

  lemma {:induction false} AimStreamRanked(cues: seq<Cue>, order: seq<nat>, t: real, fx: Effects)
    requires Indices(order, cues) && SortedByRank(cues, order)
    ensures AimsRanked(AimStream(cues, order, t, fx))
    ensures forall a :: a in AimStream(cues, order, t, fx) ==>
              order != [] && RankLeq(a.rank, RankOf(cues[order[|order| - 1]]))
  {
    if order == [] {
    } else {
      var front, last := order[..|order| - 1], order[|order| - 1];
      AimStreamRanked(cues, front, t, fx);
      var a, b := AimStream(cues, front, t, fx), CueAims(cues[last], t, fx);
      forall c | c in a ensures RankLeq(c.rank, RankOf(cues[last])) {
        assert RankLeq(RankOf(cues[front[|front| - 1]]), RankOf(cues[last]));
      }
      forall i, j | 0 <= i < j < |a + b| ensures RankLeq((a + b)[i].rank, (a + b)[j].rank) {
        if j >= |a| {
          assert (a + b)[j] in b;
          if i < |a| { assert (a + b)[i] in a; } else { assert (a + b)[i] in b; }
        }
      }
    }
  }

  ghost predicate FiredAim(cues: seq<Cue>, order: seq<nat>, t: real, fx: Effects, a: AimContribution)
    requires Indices(order, cues)
  {
    exists k :: 0 <= k < |order| && a in CueAims(cues[order[k]], t, fx)
  }

  lemma FiredAimLast(cues: seq<Cue>, order: seq<nat>, t: real, fx: Effects, a: AimContribution, front: seq<nat>, id: nat)
    requires Indices(order, cues) && order == front + [id]
    ensures id < |cues| && Indices(front, cues)
    ensures FiredAim(cues, order, t, fx, a) <==> FiredAim(cues, front, t, fx, a) || a in CueAims(cues[id], t, fx)
  {
    assert order[|front|] == id && order[..|front|] == front;
    assert forall k :: 0 <= k < |front| ==> order[k] == front[k];
    if FiredAim(cues, front, t, fx, a) {
      var k :| 0 <= k < |front| && a in CueAims(cues[front[k]], t, fx);
      assert a in CueAims(cues[order[k]], t, fx);
    }
  }

  /** The aims of a frame are those of the cues it fires. */
  lemma {:induction false} AimStreamMembers(cues: seq<Cue>, order: seq<nat>, t: real, fx: Effects, a: AimContribution)
    requires Indices(order, cues)
    ensures a in AimStream(cues, order, t, fx) <==> FiredAim(cues, order, t, fx, a)
  {
    if order == [] {
    } else {
      var front, id := order[..|order| - 1], order[|order| - 1];
      AimStreamMembers(cues, front, t, fx, a);
      FiredAimLast(cues, order, t, fx, a, front, id);
    }
  }

  // ---- what a frame must emit --------------------------------------------

  function KeyOf(ci: CapIntent): (nat, Capability) {
    (ci.fixtureId, ci.cap)
  }

  /** `out` is the blend of `stream`: every key once, in order of first use. */
  predicate EmitsCaps(out: seq<CapIntent>, stream: seq<CapContribution>) {
    |out| == |FirstKeys(stream)| &&
    forall i :: 0 <= i < |out| ==>
      KeyOf(out[i]) == FirstKeys(stream)[i] &&
      IsBlend(ForKey(stream, KeyOf(out[i])), out[i].norm01, out[i].sel)
  }

  predicate EmitsAims(out: seq<AimIntent>, stream: seq<AimContribution>) {
    |out| == |FirstFixtures(stream)| &&
    forall i :: 0 <= i < |out| ==>
      var mine := AimsFor(stream, FirstFixtures(stream)[i]);
      out[i].fixtureId == FirstFixtures(stream)[i] && mine != [] && out[i] == mine[|mine| - 1].intent
  }

  /** Each (fixture, capability) is emitted at most once, and exactly those some
      live cue wrote to. */
  lemma EmittedOnce(out: seq<CapIntent>, stream: seq<CapContribution>)
    requires EmitsCaps(out, stream)
    ensures forall i, j :: 0 <= i < j < |out| ==> KeyOf(out[i]) != KeyOf(out[j])
    ensures forall i :: 0 <= i < |out| ==> exists j :: 0 <= j < |stream| && stream[j].Key() == KeyOf(out[i])
    ensures forall j :: 0 <= j < |stream| ==> exists i :: 0 <= i < |out| && KeyOf(out[i]) == stream[j].Key()
  {
    FirstKeysDistinct(stream);
    assert forall i :: 0 <= i < |out| ==> KeyOf(out[i]) == FirstKeys(stream)[i] && KeyOf(out[i]) in FirstKeys(stream);
    forall j | 0 <= j < |stream| ensures exists i :: 0 <= i < |out| && KeyOf(out[i]) == stream[j].Key() {
      assert stream[j].Key() in FirstKeys(stream);
      var i :| 0 <= i < |FirstKeys(stream)| && FirstKeys(stream)[i] == stream[j].Key();
      assert KeyOf(out[i]) == stream[j].Key();
    }
  }

  /** Two frames that fire the same cues emit the same intents. */
  lemma EmittedUnique(a: seq<CapIntent>, b: seq<CapIntent>, stream: seq<CapContribution>)
    requires EmitsCaps(a, stream) && EmitsCaps(b, stream)
    ensures a == b
  {
    forall i | 0 <= i < |a| ensures a[i] == b[i] {
      var mine := ForKey(stream, (a[i].fixtureId, a[i].cap));
      var tail := mine[TailStart(mine)..];
      if !LastWriteStands(mine) {
        assert IsMaximum(a[i].norm01, tail) && IsMaximum(b[i].norm01, tail);
      }
    }
  }

  /** The streams depend only on the cues fired, not on their ids. */
  lemma {:induction false} SameFiredSameStreams(c1: seq<Cue>, o1: seq<nat>, c2: seq<Cue>, o2: seq<nat>,
                                                t: real, fx: Effects)
    requires Indices(o1, c1) && Indices(o2, c2) && Fired(c1, o1) == Fired(c2, o2)
    ensures CapStream(c1, o1, t, fx) == CapStream(c2, o2, t, fx)
    ensures AimStream(c1, o1, t, fx) == AimStream(c2, o2, t, fx)
  {
    assert |o1| == |Fired(c1, o1)| == |o2|;
    if o1 == [] {
    } else {
      var n := |o1| - 1;
      assert Fired(c1, o1[..n]) == Fired(c1, o1)[..n] && Fired(c2, o2[..n]) == Fired(c2, o2)[..n];
      assert Fired(c1, o1)[n] == c1[o1[n]] && Fired(c2, o2)[n] == c2[o2[n]];
      SameFiredSameStreams(c1, o1[..n], c2, o2[..n], t, fx);
    }
  }

  lemma ReachableRanks(s: State, now: real)
    requires Valid(s, now) && s.activations <= SEQ_MODULUS
    ensures DistinctRanks(s.cues)
  {
  }

  lemma SameFiredSameFrame(c1: seq<Cue>, o1: seq<nat>, c2: seq<Cue>, o2: seq<nat>, t: real, fx: Effects,
                           caps1: seq<CapIntent>, caps2: seq<CapIntent>,
                           aims1: seq<AimIntent>, aims2: seq<AimIntent>)
    requires Indices(o1, c1) && Indices(o2, c2) && Fired(c1, o1) == Fired(c2, o2)
    requires EmitsCaps(caps1, CapStream(c1, o1, t, fx)) && EmitsCaps(caps2, CapStream(c2, o2, t, fx))
    requires EmitsAims(aims1, AimStream(c1, o1, t, fx)) && EmitsAims(aims2, AimStream(c2, o2, t, fx))
    ensures caps1 == caps2 && aims1 == aims2
  {
    SameFiredSameStreams(c1, o1, c2, o2, t, fx);
    EmittedUnique(caps1, caps2, CapStream(c1, o1, t, fx));
    AimedUnique(aims1, aims2, AimStream(c1, o1, t, fx));
  }

  lemma AimedUnique(a: seq<AimIntent>, b: seq<AimIntent>, stream: seq<AimContribution>)
    requires EmitsAims(a, stream) && EmitsAims(b, stream)
    ensures a == b
  {
  }

  /** In reachable states whose counters have not wrapped, what a frame emits is
      determined by the active cues and their ranks: neither the sort algorithm
      nor the ids the cues were given matter. */
  lemma FrameDetermined(s1: State, s2: State, now: real, t: real, fx: Effects, o1: seq<nat>, o2: seq<nat>,
                        caps1: seq<CapIntent>, caps2: seq<CapIntent>,
                        aims1: seq<AimIntent>, aims2: seq<AimIntent>)
    requires Valid(s1, now) && s1.activations <= SEQ_MODULUS
    requires Valid(s2, now) && s2.activations <= SEQ_MODULUS
    requires SameActive(s1.cues, s2.cues)
    requires IsFiringOrder(s1.cues, o1) && IsFiringOrder(s2.cues, o2)
    requires EmitsCaps(caps1, CapStream(s1.cues, o1, t, fx)) && EmitsCaps(caps2, CapStream(s2.cues, o2, t, fx))
    requires EmitsAims(aims1, AimStream(s1.cues, o1, t, fx)) && EmitsAims(aims2, AimStream(s2.cues, o2, t, fx))
    ensures caps1 == caps2 && aims1 == aims2
  {
    ReachableRanks(s1, now);
    ReachableRanks(s2, now);
    FiredDetermined(s1.cues, s2.cues, o1, o2);
    SameFiredSameFrame(s1.cues, o1, s2.cues, o2, t, fx, caps1, caps2, aims1, aims2);
  }

  /** What one emitted intent is worth. If only blended writes reached its key it
      is linear and the maximum of weight times value over the live cues; if none
      did, it is the last intent of the highest-ranked live cue writing the key. */
  lemma EmittedValue(cues: seq<Cue>, order: seq<nat>, t: real, fx: Effects, out: seq<CapIntent>, i: nat)
    requires IsFiringOrder(cues, order) && EmitsCaps(out, CapStream(cues, order, t, fx)) && i < |out|
    ensures PureCases(ForKey(CapStream(cues, order, t, fx), KeyOf(out[i])), out[i].norm01, out[i].sel)
  {
    StreamRanked(cues, order, t, fx);
    EmittedBlend(CapStream(cues, order, t, fx), out, i);
  }

  lemma EmittedBlend(stream: seq<CapContribution>, out: seq<CapIntent>, i: nat)
    requires Ranked(stream) && EmitsCaps(out, stream) && i < |out|
    ensures PureCases(ForKey(stream, KeyOf(out[i])), out[i].norm01, out[i].sel)
  {
    ForKeyRanked(stream, KeyOf(out[i]));
    WrittenKey(stream, i);
    BlendValue(ForKey(stream, KeyOf(out[i])), out[i].norm01, out[i].sel);
  }

  lemma WrittenKey(stream: seq<CapContribution>, i: nat)
    requires i < |FirstKeys(stream)|
    ensures ForKey(stream, FirstKeys(stream)[i]) != []
  {
    FirstKeysDistinct(stream);
    assert FirstKeys(stream)[i] in FirstKeys(stream);
    ForKeyNonEmpty(stream, FirstKeys(stream)[i]);
  }

  /** After `stopAll` frames emit nothing until the next `go`, `goScene` or
      positive `setManualLevel`. */
  lemma NothingEmittedAfterStopAll(s: State, es: seq<Event>, t: real, fx: Effects, order: seq<nat>,
                                   caps: seq<CapIntent>, aims: seq<AimIntent>)
    requires forall i :: 0 <= i < |es| ==> Quiet(es[i])
    requires var cues := Run(StopAll(s), es).cues;
             IsFiringOrder(cues, order) &&
             EmitsCaps(caps, CapStream(cues, order, t, fx)) && EmitsAims(aims, AimStream(cues, order, t, fx))
    ensures caps == [] && aims == []
  {
    SilentAfterStopAll(s, es, t);
    assert forall k :: 0 <= k < |order| ==> order[k] in order;
  }

  /** Each fixture is aimed at most once, and exactly those some live cue aimed. */
  lemma AimedOnce(out: seq<AimIntent>, stream: seq<AimContribution>)
    requires EmitsAims(out, stream)
    ensures forall i, j :: 0 <= i < j < |out| ==> out[i].fixtureId != out[j].fixtureId
    ensures forall i :: 0 <= i < |out| ==> exists j :: 0 <= j < |stream| && stream[j].intent.fixtureId == out[i].fixtureId
    ensures forall j :: 0 <= j < |stream| ==> exists i :: 0 <= i < |out| && out[i].fixtureId == stream[j].intent.fixtureId
  {
    var fs := FirstFixtures(stream);
    FirstFixturesDistinct(stream);
    assert forall i :: 0 <= i < |out| ==> out[i].fixtureId == fs[i] && fs[i] in fs;
    forall j | 0 <= j < |stream| ensures exists i :: 0 <= i < |out| && out[i].fixtureId == stream[j].intent.fixtureId {
      assert stream[j].intent.fixtureId in fs;
      var i :| 0 <= i < |fs| && fs[i] == stream[j].intent.fixtureId;
      assert out[i].fixtureId == fs[i];
    }
  }

  /** An emitted aim is the last one at its fixture of the highest-ranked live cue
      that aims at it. */
  lemma EmittedAim(cues: seq<Cue>, order: seq<nat>, t: real, fx: Effects, out: seq<AimIntent>, i: nat)
    requires IsFiringOrder(cues, order) && EmitsAims(out, AimStream(cues, order, t, fx)) && i < |out|
    ensures AimWins(out[i], AimsFor(AimStream(cues, order, t, fx), out[i].fixtureId))
  {
    AimStreamRanked(cues, order, t, fx);
    AimOfHighest(AimStream(cues, order, t, fx), out, i);
  }

  lemma AimOfHighest(stream: seq<AimContribution>, out: seq<AimIntent>, i: nat)
    requires AimsRanked(stream) && EmitsAims(out, stream) && i < |out|
    ensures AimWins(out[i], AimsFor(stream, out[i].fixtureId))
  {
    AimsForRanked(stream, out[i].fixtureId);
  }

  // ---- equal ranks -------------------------------------------------------

  /** Effect `e` pans fixture 0 to `e`. */
  function Panning(e: nat, t: real): Output {
    Output([CapIntent(0, PAN, e as real, LINEAR)], [])
  }

  /** A cue as added, and as triggered at time zero with activation number zero. */
  function Added(effect: nat): Cue {
    Cue([effect], 0.0, 0.0, 0, 0.0, false, 0.0, 0, false, 0.0, 0.0, false, 0.0)
  }

  function Triggered(effect: nat): Cue {
    Added(effect).(active := true)
  }

  function PanTo(effect: nat): CapContribution {
    CapContribution(CapIntent(0, PAN, effect as real, LINEAR), effect as real, Rank(0, 0))
  }

  lemma TriggeredPans(effect: nat)
    ensures CueCaps(Triggered(effect), 0.0, Panning) == [PanTo(effect)]
  {
    assert [effect][..0] == [];
    assert Gather([effect], 0.0, Panning) == Output([CapIntent(0, PAN, effect as real, LINEAR)], []);
  }

  lemma TwoFired(cues: seq<Cue>, a: nat, b: nat, t: real, fx: Effects)
    requires a < |cues| && b < |cues|
    ensures CapStream(cues, [a, b], t, fx) == CueCaps(cues[a], t, fx) + CueCaps(cues[b], t, fx)
  {
    assert [a, b][..1] == [a] && [a][..0] == [];
    assert CapStream(cues, [], t, fx) == [];
    assert CapStream(cues, [a], t, fx) == CueCaps(cues[a], t, fx);
  }

  lemma PanStream(cues: seq<Cue>, a: nat, b: nat)
    requires a < |cues| && b < |cues| && cues[a] == Triggered(a) && cues[b] == Triggered(b)
    ensures CapStream(cues, [a, b], 0.0, Panning) == [PanTo(a), PanTo(b)]
  {
    TwoFired(cues, a, b, 0.0, Panning);
    TriggeredPans(a);
    TriggeredPans(b);
  }

  lemma TwoToOneKey(c: CapContribution, d: CapContribution)
    requires c.Key() == d.Key()
    ensures FirstKeys([c, d]) == [c.Key()] && ForKey([c, d], c.Key()) == [c, d]
  {
    assert [c, d][..1] == [c] && [c][..0] == [];
    assert FirstKeys([c]) == [c.Key()] && ForKey([c], c.Key()) == [c];
  }

  lemma LastPanStands(a: nat, b: nat, out: seq<CapIntent>)
    requires EmitsCaps(out, [PanTo(a), PanTo(b)])
    ensures out == [CapIntent(0, PAN, b as real, LINEAR)]
  {
    TwoToOneKey(PanTo(a), PanTo(b));
    LtpTakesHighestRank([PanTo(a), PanTo(b)], out[0].norm01, out[0].sel);
  }

  lemma BothOrders(cues: seq<Cue>)
    requires |cues| == 2 && cues[0].active && cues[1].active && RankOf(cues[0]) == RankOf(cues[1])
    ensures IsFiringOrder(cues, [0, 1]) && IsFiringOrder(cues, [1, 0])
  {
  }

  /** Two active cues of one rank have two firing orders, and the last one fired
      decides the frame: what it pans to depends on the sort. */
  lemma EqualRanksUndetermined(cues: seq<Cue>, out: seq<CapIntent>, turned: seq<CapIntent>)
    requires cues == [Triggered(0), Triggered(1)]
    requires EmitsCaps(out, CapStream(cues, [0, 1], 0.0, Panning))
    requires EmitsCaps(turned, CapStream(cues, [1, 0], 0.0, Panning))
    ensures IsFiringOrder(cues, [0, 1]) && IsFiringOrder(cues, [1, 0])
    ensures out == [CapIntent(0, PAN, 1.0, LINEAR)] && turned == [CapIntent(0, PAN, 0.0, LINEAR)]
  {
    BothOrders(cues);
    PanStream(cues, 0, 1);
    PanStream(cues, 1, 0);
    LastPanStands(0, 1, out);
    LastPanStands(1, 0, turned);
  }

  lemma NextInOrder(cues: seq<Cue>, order: seq<nat>, n: nat)
    requires IsFiringOrder(cues, order) && n < |order|
    ensures cues[order[n]].active && order[n] !in order[..n]
    ensures forall i :: i in order[..n + 1] <==> i in order[..n] || i == order[n]
  {
    assert order[n] in order && order[..n + 1] == order[..n] + [order[n]];
  }

  lemma StreamsGrow(cues: seq<Cue>, order: seq<nat>, n: nat, t: real, fx: Effects)
    requires Indices(order, cues) && n < |order|
    ensures CapStream(cues, order[..n + 1], t, fx)
            == CapStream(cues, order[..n], t, fx) + CueCaps(cues[order[n]], t, fx)
    ensures AimStream(cues, order[..n + 1], t, fx)
            == AimStream(cues, order[..n], t, fx) + CueAims(cues[order[n]], t, fx)
  {
    assert order[..n + 1][..n] == order[..n];
  }

  /** Cue 0 triggered once, then cue 1 `n` times. */
  function Retriggering(n: nat): (es: seq<Event>)
    ensures |es| == n + 1
  {
    [Event(OpGo(0), 0.0)] + seq(n, _ => Event(OpGo(1), 0.0))
  }

  lemma {:induction false} AfterRetriggering(n: nat)
    ensures var s := Run(State([Added(0), Added(1)], [], 0, 0), Retriggering(n));
            |s.cues| == 2 && s.cues[0] == Triggered(0) && s.nextActivationSeq == (n + 1) % SEQ_MODULUS &&
            (n > 0 ==> s.cues[1] == Triggered(1).(activationSeq := n % SEQ_MODULUS))
  {
    var s0 := State([Added(0), Added(1)], [], 0, 0);
    if n == 0 {
      assert Retriggering(0)[..0] == [] && Run(s0, []) == s0;
    } else {
      AfterRetriggering(n - 1);
      assert Retriggering(n)[..n] == Retriggering(n - 1);
      NextMod(n);
    }
  }

  /** A run reaches such a state: once the 32-bit counter has wrapped, cue 1 is given
      the number cue 0 still holds. */
  lemma WrapMakesEqualRanks()
    ensures Run(State([Added(0), Added(1)], [], 0, 0), Retriggering(SEQ_MODULUS)).cues == [Triggered(0), Triggered(1)]
    ensures !DistinctRanks([Triggered(0), Triggered(1)])
  {
    AfterRetriggering(SEQ_MODULUS);
  }

  lemma AllRetired(c0: seq<Cue>, cues: seq<Cue>, order: seq<nat>, t: real)
    requires IsFiringOrder(c0, order) && |cues| == |c0|
    requires forall i :: 0 <= i < |cues| ==> cues[i] == if i in order then Retire(c0[i], t) else c0[i]
    ensures cues == seq(|c0|, i requires 0 <= i < |c0| => Retire(c0[i], t))
  {
  }

  class ShowController {
    var cues: seq<Cue>
    var scenes: seq<seq<nat>>
    var nextActivationSeq: nat
    ghost var activations: nat

    ghost function St(): State
      reads this
    {
      State(cues, scenes, nextActivationSeq, activations)
    }

    constructor ()
      ensures St() == State([], [], 0, 0)
      ensures forall now :: Valid(St(), now)
    {
      cues, scenes, nextActivationSeq, activations := [], [], 0, 0;
    }

    method AddCue(effects: seq<nat>, fadeInSec: real, fadeOutSec: real, priority: nat, holdSec: real)
        returns (id: nat)
      modifies this`cues
      ensures id == old(|cues|) && |cues| == id + 1 && cues[..id] == old(cues)
      ensures var c := cues[id];
              c.effects == effects && c.fadeInSec == fadeInSec && c.fadeOutSec == fadeOutSec &&
              c.priority == priority && c.holdSec == holdSec
      ensures !cues[id].active && !cues[id].manualOverride
      ensures forall now :: old(Valid(St(), now)) ==> Valid(St(), now)
    {
      id := |cues|;
      cues := cues + [Cue(effects, fadeInSec, fadeOutSec, priority, holdSec,
                          false, 0.0, 0, false, 0.0, 0.0, false, 0.0)];
    }

    method AddScene(ids: seq<nat>) returns (id: nat)
      modifies this`scenes
      ensures id == old(|scenes|) && scenes == old(scenes) + [ids]
      ensures forall now :: old(Valid(St(), now)) ==> Valid(St(), now)
    {
      id := |scenes|;
      scenes := scenes + [ids];
    }

    method Go(id: nat, t: real)
      modifies this
      ensures St() == Cues.Go(old(St()), id, t)
    {
      if id >= |cues| { return; }
      cues := cues[id := cues[id].(active := true, goTime := t, released := false,
                                   activationSeq := nextActivationSeq)];
      nextActivationSeq := (nextActivationSeq + 1) % SEQ_MODULUS;
      activations := activations + 1;
    }

    method Release(id: nat, t: real)
      modifies this
      ensures St() == Cues.Release(old(St()), id, t)
    {
      if id >= |cues| || !cues[id].active || cues[id].released { return; }
      var w := WeightAndAlive(cues[id], t).w;
      cues := cues[id := cues[id].(released := true, releaseTime := t, releaseWeight := w)];
    }

    method GoScene(scene: nat, t: real)
      modifies this
      ensures St() == Cues.GoScene(old(St()), scene, t)
    {
      if scene >= |scenes| { return; }
      var ids := scenes[scene];
      for i := 0 to |ids|
        invariant St() == GoAll(old(St()), ids[..i], t)
      {
        assert ids[..i + 1][..i] == ids[..i];
        Go(ids[i], t);
      }
      assert ids[..|ids|] == ids;
    }

    method ReleaseScene(scene: nat, t: real)
      modifies this
      ensures St() == Cues.ReleaseScene(old(St()), scene, t)
    {
      if scene >= |scenes| { return; }
      var ids := scenes[scene];
      for i := 0 to |ids|
        invariant St() == ReleaseAll(old(St()), ids[..i], t)
      {
        assert ids[..i + 1][..i] == ids[..i];
        Release(ids[i], t);
      }
      assert ids[..|ids|] == ids;
    }

    method SetManualLevel(id: nat, level: real)
      modifies this
      ensures St() == Cues.SetManualLevel(old(St()), id, level)
    {
      if id >= |cues| { return; }
      var l := Clamp01(level);
      if l > 0.0 {
        if !cues[id].active {
          cues := cues[id := cues[id].(activationSeq := nextActivationSeq)];
          nextActivationSeq := (nextActivationSeq + 1) % SEQ_MODULUS;
          activations := activations + 1;
        }
        cues := cues[id := cues[id].(active := true, released := false, manualOverride := true, manualLevel := l)];
      } else {
        cues := cues[id := cues[id].(manualOverride := false, manualLevel := 0.0, active := false)];
      }
    }

    method StopAll()
      modifies this
      ensures St() == Cues.StopAll(old(St()))
    {
      var i := 0;
      while i < |cues|
        invariant i <= |cues| == |old(cues)|
        invariant scenes == old(scenes) && nextActivationSeq == old(nextActivationSeq)
        invariant activations == old(activations)
        invariant forall j :: 0 <= j < |cues| ==>
                    cues[j] == if j < i then Cues.StopAll(old(St())).cues[j] else old(cues[j])
      {
        cues := cues[i := cues[i].(active := false, released := false, manualOverride := false)];
        i := i + 1;
      }
      assert cues == Cues.StopAll(old(St())).cues;
    }

    /** The active cues, sorted by (priority, activationSeq). */
    method ActiveCues() returns (order: seq<nat>)
      ensures IsFiringOrder(cues, order)
    {
      order := [];
      for i := 0 to |cues|
        invariant Indices(order, cues) && Distinct(order) && SortedByRank(cues, order)
        invariant forall k :: k in order <==> 0 <= k < i && cues[k].active
      {
        if cues[i].active { order := Insert(order, i); }
      }
    }

    method Insert(order: seq<nat>, x: nat) returns (r: seq<nat>)
      requires x < |cues| && x !in order
      requires Indices(order, cues) && Distinct(order) && SortedByRank(cues, order)
      ensures r == InsertedAt(cues, order, x)
      ensures Indices(r, cues) && Distinct(r) && SortedByRank(cues, r)
      ensures forall k :: k in r <==> k == x || k in order
    {
      var p := |order|;
      while p > 0 && !RankLeq(RankOf(cues[order[p - 1]]), RankOf(cues[x]))
        invariant 0 <= p <= |order|
        invariant InsertionPoint(cues, order, x, p) == InsertionPoint(cues, order, x, |order|)
      {
        p := p - 1;
      }
      r := order[..p] + [x] + order[p..];
      Inserted(cues, order, p, x);
    }

    method RunEffects(effects: seq<nat>, t: real, fx: Effects) returns (o: Output)
      ensures o == Gather(effects, t, fx)
    {
      o := Output([], []);
      for i := 0 to |effects|
        invariant o == Gather(effects[..i], t, fx)
      {
        assert effects[..i + 1][..i] == effects[..i];
        var p := fx(effects[i], t);
        o := Output(o.caps + p.caps, o.aims + p.aims);
      }
      assert effects[..|effects|] == effects;
    }

    method MergeCueCaps(ws: seq<WorkingCap>, caps: seq<CapIntent>, w: real, r: Rank,
                        ghost cs: seq<CapContribution>) returns (ws': seq<WorkingCap>)
      requires Represents(ws, cs) && OwnedUpTo(ws, r)
      ensures OwnedUpTo(ws', r)
      ensures Represents(ws', cs + seq(|caps|, i requires 0 <= i < |caps| => Contribution(caps[i], w, r)))
    {
      ws' := ws;
      ghost var added := seq(|caps|, i requires 0 <= i < |caps| => Contribution(caps[i], w, r));
      assert cs + added[..0] == cs;
      for i := 0 to |caps|
        invariant Represents(ws', cs + added[..i]) && OwnedUpTo(ws', r)
      {
        ws' := MergeCap(ws', Contribution(caps[i], w, r), cs + added[..i]);
        assert cs + added[..i] + [added[i]] == cs + added[..i + 1];
      }
      assert added[..|caps|] == added;
    }

    method MergeCueAims(ws: seq<WorkingAim>, aims: seq<AimIntent>, r: Rank,
                        ghost cs: seq<AimContribution>) returns (ws': seq<WorkingAim>)
      requires RepresentsAims(ws, cs) && AimsOwnedUpTo(ws, r)
      ensures AimsOwnedUpTo(ws', r)
      ensures RepresentsAims(ws', cs + seq(|aims|, i requires 0 <= i < |aims| => AimContribution(aims[i], r)))
    {
      ws' := ws;
      ghost var added := seq(|aims|, i requires 0 <= i < |aims| => AimContribution(aims[i], r));
      assert cs + added[..0] == cs;
      for i := 0 to |aims|
        invariant RepresentsAims(ws', cs + added[..i]) && AimsOwnedUpTo(ws', r)
      {
        ws' := MergeAim(ws', AimContribution(aims[i], r), cs + added[..i]);
        assert cs + added[..i] + [added[i]] == cs + added[..i + 1];
      }
      assert added[..|aims|] == added;
    }

    /** Fires one active cue of the frame, or retires it. */
    method FireCue(cue: Cue, t: real, fx: Effects, wc: seq<WorkingCap>, wa: seq<WorkingAim>,
                   ghost cs: seq<CapContribution>, ghost as_: seq<AimContribution>)
        returns (cue': Cue, wc': seq<WorkingCap>, wa': seq<WorkingAim>)
      requires cue.active
      requires Represents(wc, cs) && OwnedUpTo(wc, RankOf(cue))
      requires RepresentsAims(wa, as_) && AimsOwnedUpTo(wa, RankOf(cue))
      ensures cue' == Retire(cue, t)
      ensures Represents(wc', cs + CueCaps(cue, t, fx)) && OwnedUpTo(wc', RankOf(cue))
      ensures RepresentsAims(wa', as_ + CueAims(cue, t, fx)) && AimsOwnedUpTo(wa', RankOf(cue))
    {
      cue', wc', wa' := cue, wc, wa;
      assert cs + [] == cs && as_ + [] == as_;
      var weight := WeightAndAlive(cue, t);
      if !weight.alive {
        cue' := cue.(active := false);
        return;
      }
      if weight.w <= 0.0 { return; }
      var o := RunEffects(cue.effects, t, fx);
      wc' := MergeCueCaps(wc, o.caps, weight.w, RankOf(cue), cs);
      wa' := MergeCueAims(wa, o.aims, RankOf(cue), as_);
    }

    /** Fires the active cues in order, retiring the dead ones. */
    method FireAll(order: seq<nat>, t: real, fx: Effects) returns (wc: seq<WorkingCap>, wa: seq<WorkingAim>)
      requires IsFiringOrder(cues, order)
      modifies this`cues
      ensures St() == Frame(old(St()), t)
      ensures Represents(wc, CapStream(old(cues), order, t, fx))
      ensures RepresentsAims(wa, AimStream(old(cues), order, t, fx))
    {
      wc, wa := [], [];
      ghost var c0 := cues;
      var n := 0;
      while n < |order|
        invariant n <= |order| && |cues| == |c0|
        invariant Represents(wc, CapStream(c0, order[..n], t, fx))
        invariant RepresentsAims(wa, AimStream(c0, order[..n], t, fx))
        invariant forall m :: n <= m < |order| ==> OwnedUpTo(wc, RankOf(c0[order[m]]))
        invariant forall m :: n <= m < |order| ==> AimsOwnedUpTo(wa, RankOf(c0[order[m]]))
        invariant forall i :: 0 <= i < |cues| ==> cues[i] == if i in order[..n] then Retire(c0[i], t) else c0[i]
      {
        var id := order[n];
        NextInOrder(c0, order, n);
        StreamsGrow(c0, order, n, t, fx);
        var cue;
        cue, wc, wa := FireCue(cues[id], t, fx, wc, wa,
                               CapStream(c0, order[..n], t, fx), AimStream(c0, order[..n], t, fx));
        cues := cues[id := cue];
        OwnersRise(wc, wa, c0, order, n);
        n := n + 1;
      }
      assert order[..n] == order;
      AllRetired(c0, cues, order, t);
    }

    /** One frame: retires dead cues and appends the blend of the live ones. */
    method Evaluate(t: real, fx: Effects, caps: seq<CapIntent>, aims: seq<AimIntent>)
        returns (caps': seq<CapIntent>, aims': seq<AimIntent>, ghost order: seq<nat>)
      modifies this`cues
      ensures St() == Frame(old(St()), t)
      ensures IsFiringOrder(old(cues), order)
      ensures caps <= caps' && EmitsCaps(caps'[|caps|..], CapStream(old(cues), order, t, fx))
      ensures aims <= aims' && EmitsAims(aims'[|aims|..], AimStream(old(cues), order, t, fx))
    {
      var active := ActiveCues();
      order := active;
      var wc, wa := FireAll(active, t, fx);
      caps', aims' := Emit(wc, wa, caps, aims);
    }

    lemma OwnersRise(wc: seq<WorkingCap>, wa: seq<WorkingAim>, c0: seq<Cue>, order: seq<nat>, n: nat)
      requires Indices(order, c0) && SortedByRank(c0, order) && n < |order|
      requires OwnedUpTo(wc, RankOf(c0[order[n]])) && AimsOwnedUpTo(wa, RankOf(c0[order[n]]))
      ensures forall m :: n < m < |order| ==>
                OwnedUpTo(wc, RankOf(c0[order[m]])) && AimsOwnedUpTo(wa, RankOf(c0[order[m]]))
    {
    }

    method Emit(wc: seq<WorkingCap>, wa: seq<WorkingAim>, caps: seq<CapIntent>, aims: seq<AimIntent>)
        returns (caps': seq<CapIntent>, aims': seq<AimIntent>)
      ensures |caps'| == |caps| + |wc| && caps <= caps'
      ensures forall i :: 0 <= i < |wc| ==>
                caps'[|caps|..][i] == CapIntent(wc[i].fixtureId, wc[i].cap, wc[i].value, wc[i].sel)
      ensures |aims'| == |aims| + |wa| && aims <= aims'
      ensures forall i :: 0 <= i < |wa| ==> aims'[|aims|..][i] == wa[i].intent
    {
      caps', aims' := caps, aims;
      for i := 0 to |wc|
        invariant |caps'| == |caps| + i && caps <= caps'
        invariant forall j :: 0 <= j < i ==>
                    caps'[|caps| + j] == CapIntent(wc[j].fixtureId, wc[j].cap, wc[j].value, wc[j].sel)
      {
        caps' := caps' + [CapIntent(wc[i].fixtureId, wc[i].cap, wc[i].value, wc[i].sel)];
      }
      for i := 0 to |wa|
        invariant |aims'| == |aims| + i && aims <= aims'
        invariant forall j :: 0 <= j < i ==> aims'[|aims| + j] == wa[j].intent
      {
        aims' := aims' + [wa[i].intent];
      }
    }
  }
}
