/** Which aim a frame emits for a fixture, said of the cues that play and of what
    their effects aim at. */
module EmittedAims {
  import opened Cues
  import opened Blend
  import opened FiringOrder
  import opened ShowControl

  predicate NoneAt(aims: seq<AimIntent>, f: nat) {
    forall q :: 0 <= q < |aims| ==> aims[q].fixtureId != f
  }

  /** Position `p` holds the last aim at fixture `f`. */
  predicate LastAt(aims: seq<AimIntent>, f: nat, p: int) {
    0 <= p < |aims| && aims[p].fixtureId == f && forall q :: p < q < |aims| ==> aims[q].fixtureId != f
  }

  /** `ai` is the last of effect `j`'s aims at `f`, and later effects have none. */
  ghost predicate LastAimed(effects: seq<nat>, t: real, fx: Effects, f: nat, j: int, ai: AimIntent) {
    0 <= j < |effects| &&
    (exists k :: LastAt(fx(effects[j], t).aims, f, k) && fx(effects[j], t).aims[k] == ai) &&
    forall j' :: j < j' < |effects| ==> NoneAt(fx(effects[j'], t).aims, f)
  }

  ghost predicate AimsLast(cue: Cue, t: real, fx: Effects, f: nat, ai: AimIntent) {
    cue.active && WeightAndAlive(cue, t).alive && WeightAndAlive(cue, t).w > 0.0 &&
    exists j :: LastAimed(cue.effects, t, fx, f, j, ai)
  }

  ghost predicate AimsElsewhere(cue: Cue, t: real, fx: Effects, f: nat) {
    cue.active && WeightAndAlive(cue, t).alive && WeightAndAlive(cue, t).w > 0.0 ==>
      forall j :: 0 <= j < |cue.effects| ==> NoneAt(fx(cue.effects[j], t).aims, f)
  }

  /** `ai` is the last aim at `f` of the last fired cue that has one. */
  ghost predicate FiredAimLast(cues: seq<Cue>, order: seq<nat>, t: real, fx: Effects, f: nat, n: int, ai: AimIntent)
    requires Indices(order, cues)
  {
    0 <= n < |order| && AimsLast(cues[order[n]], t, fx, f, ai) &&
    forall m :: n < m < |order| ==> AimsElsewhere(cues[order[m]], t, fx, f)
  }

  ghost predicate SomeFiredAimLast(cues: seq<Cue>, order: seq<nat>, t: real, fx: Effects, f: nat, ai: AimIntent)
    requires Indices(order, cues)
  {
    exists n :: FiredAimLast(cues, order, t, fx, f, n, ai)
  }

  // ---- within a cue ------------------------------------------------------

  lemma SplitLastAim(x: seq<AimIntent>, y: seq<AimIntent>, f: nat, p: int)
    requires LastAt(x + y, f, p)
    ensures p >= |x| ==> LastAt(y, f, p - |x|) && y[p - |x|] == (x + y)[p]
    ensures p < |x| ==> LastAt(x, f, p) && x[p] == (x + y)[p] && NoneAt(y, f)
  {
    assert forall q :: 0 <= q < |y| ==> y[q] == (x + y)[|x| + q];
    assert forall q :: 0 <= q < |x| ==> x[q] == (x + y)[q];
  }

  lemma {:induction false} LastAimGathered(effects: seq<nat>, t: real, fx: Effects, f: nat, p: int) returns (j: int)
    requires LastAt(Gather(effects, t, fx).aims, f, p)
    ensures LastAimed(effects, t, fx, f, j, Gather(effects, t, fx).aims[p])
  {
    var n := |effects| - 1;
    var front := effects[..n];
    var x, y := Gather(front, t, fx).aims, fx(effects[n], t).aims;
    SplitLastAim(x, y, f, p);
    if p >= |x| {
      j := n;
    } else {
      j := LastAimGathered(front, t, fx, f, p);
    }
  }

  lemma {:induction false} NoAimGathered(effects: seq<nat>, t: real, fx: Effects, f: nat)
    requires NoneAt(Gather(effects, t, fx).aims, f)
    ensures forall j :: 0 <= j < |effects| ==> NoneAt(fx(effects[j], t).aims, f)
  {
    if effects == [] {
    } else {
      var n := |effects| - 1;
      var x, y := Gather(effects[..n], t, fx).aims, fx(effects[n], t).aims;
      assert forall q :: 0 <= q < |y| ==> y[q] == (x + y)[|x| + q];
      assert forall q :: 0 <= q < |x| ==> x[q] == (x + y)[q];
      NoAimGathered(effects[..n], t, fx, f);
    }
  }

  // ---- within the stream -------------------------------------------------

  predicate Aimed(as_: seq<AimContribution>, f: nat) {
    AimsFor(as_, f) != []
  }

  function LastOf(as_: seq<AimContribution>, f: nat): AimIntent
    requires Aimed(as_, f)
  {
    AimsFor(as_, f)[|AimsFor(as_, f)| - 1].intent
  }

  lemma {:induction false} LastAimPush(as_: seq<AimContribution>, a: AimContribution, f: nat)
    ensures Aimed(as_ + [a], f) <==> a.intent.fixtureId == f || Aimed(as_, f)
    ensures Aimed(as_ + [a], f) ==> LastOf(as_ + [a], f) == if a.intent.fixtureId == f then a.intent else LastOf(as_, f)
  {
    AimsForPush(as_, a, f);
  }

  lemma {:induction false} LastAimOfTwo(x: seq<AimContribution>, y: seq<AimContribution>, f: nat)
    ensures Aimed(x + y, f) <==> Aimed(x, f) || Aimed(y, f)
    ensures Aimed(x + y, f) ==> LastOf(x + y, f) == if Aimed(y, f) then LastOf(y, f) else LastOf(x, f)
  {
    if y == [] {
      assert x + y == x;
    } else {
      var front, last := y[..|y| - 1], y[|y| - 1];
      LastAimOfTwo(x, front, f);
      LastAimPush(front, last, f);
      LastAimPush(x + front, last, f);
      assert y == front + [last] && x + y == (x + front) + [last];
    }
  }

  lemma {:induction false} LastAimPosition(as_: seq<AimContribution>, f: nat) returns (p: int)
    requires Aimed(as_, f)
    ensures 0 <= p < |as_| && as_[p].intent == LastOf(as_, f) && as_[p].intent.fixtureId == f
    ensures forall q :: p < q < |as_| ==> as_[q].intent.fixtureId != f
  {
    var n := |as_| - 1;
    assert as_ == as_[..n] + [as_[n]];
    LastAimPush(as_[..n], as_[n], f);
    if as_[n].intent.fixtureId == f {
      p := n;
    } else {
      p := LastAimPosition(as_[..n], f);
    }
  }

  lemma {:induction false} CueAimLast(cue: Cue, t: real, fx: Effects, f: nat)
    ensures if Aimed(CueAims(cue, t, fx), f) then AimsLast(cue, t, fx, f, LastOf(CueAims(cue, t, fx), f))
            else AimsElsewhere(cue, t, fx, f)
  {
    var aims, all := Gather(cue.effects, t, fx).aims, CueAims(cue, t, fx);
    if Contributes(cue, t) {
      assert |all| == |aims| && forall i :: 0 <= i < |aims| ==> all[i].intent == aims[i];
      if Aimed(all, f) {
        var p := LastAimPosition(all, f);
        assert LastAt(aims, f, p);
        var j := LastAimGathered(cue.effects, t, fx, f, p);
      } else {
        forall q | 0 <= q < |aims| ensures aims[q].fixtureId != f { AimsForMembers(all, f); assert all[q] in all; }
        NoAimGathered(cue.effects, t, fx, f);
      }
    }
  }

  lemma {:induction false} StillLastAim(cues: seq<Cue>, front: seq<nat>, id: nat, order: seq<nat>, t: real, fx: Effects,
                                        f: nat, n: int, ai: AimIntent)
    requires Indices(order, cues) && order == front + [id] && Indices(front, cues)
    requires FiredAimLast(cues, front, t, fx, f, n, ai) && id < |cues| && AimsElsewhere(cues[id], t, fx, f)
    ensures FiredAimLast(cues, order, t, fx, f, n, ai)
  {
    forall m | n < m < |order| ensures AimsElsewhere(cues[order[m]], t, fx, f) {
      if m < |front| { assert order[m] == front[m]; }
    }
  }

  lemma {:induction false} StreamAimLast(cues: seq<Cue>, order: seq<nat>, t: real, fx: Effects, f: nat) returns (n: int)
    requires Indices(order, cues) && Aimed(AimStream(cues, order, t, fx), f)
    ensures FiredAimLast(cues, order, t, fx, f, n, LastOf(AimStream(cues, order, t, fx), f))
  {
    var last := |order| - 1;
    var front, id := order[..last], order[last];
    assert order == front + [id];
    var x, y := AimStream(cues, front, t, fx), CueAims(cues[id], t, fx);
    LastAimOfTwo(x, y, f);
    CueAimLast(cues[id], t, fx, f);
    if Aimed(y, f) {
      n := last;
    } else {
      n := StreamAimLast(cues, front, t, fx, f);
      StillLastAim(cues, front, id, order, t, fx, f, n, LastOf(x, f));
    }
  }

  lemma {:induction false} EmittedIsLastAim(stream: seq<AimContribution>, out: seq<AimIntent>, i: nat)
    requires EmitsAims(out, stream) && i < |out|
    ensures Aimed(stream, out[i].fixtureId) && LastOf(stream, out[i].fixtureId) == out[i]
  {
  }

  /** An emitted aim is the last at its fixture: no later cue in the firing order, no
      later effect of its cue and no later aim of the effect is at that fixture. */
  lemma {:induction false} EmittedAimLatest(cues: seq<Cue>, order: seq<nat>, t: real, fx: Effects, out: seq<AimIntent>, i: nat)
    requires IsFiringOrder(cues, order) && EmitsAims(out, AimStream(cues, order, t, fx)) && i < |out|
    ensures SomeFiredAimLast(cues, order, t, fx, out[i].fixtureId, out[i])
  {
    EmittedIsLastAim(AimStream(cues, order, t, fx), out, i);
    var n := StreamAimLast(cues, order, t, fx, out[i].fixtureId);
  }
}
