/** The weight of a cue of show_control.cpp over its life: up during the fade-in,
    full during the hold, down during the fade-out, and what a manual level does. */
module CueShape {
  import opened Reals
  import opened Cues
  import opened Blend
  import opened FiringOrder

  /** `x` is the share `part` of `whole`. */
  predicate IsShare(x: real, part: real, whole: real) {
    x * whole == part
  }

  function FadeIn(cue: Cue): real {
    if cue.fadeInSec > 0.0 then cue.fadeInSec else 0.0
  }

  function FadeOut(cue: Cue): real {
    if cue.fadeOutSec > 0.0 then cue.fadeOutSec else 0.0
  }

  /** The weight a cue started at `t` has at time `x`. */
  predicate RisesAndFalls(cue: Cue, t: real, x: real, w: Weight) {
    var e, up, down := x - t, FadeIn(cue), FadeOut(cue);
    if e < 0.0 then w == Weight(0.0, true)
    else if e < up then w.alive && IsShare(w.w, e, up)
    else if cue.holdSec <= 0.0 || e < up + cue.holdSec then w == Weight(1.0, true)
    else if e < up + cue.holdSec + down then w.alive && IsShare(w.w, up + cue.holdSec + down - e, down)
    else w == Weight(0.0, false)
  }

  lemma ShareOf(part: real, whole: real)
    requires whole > 0.0
    ensures IsShare(part / whole, part, whole) && (part < whole <==> part / whole < 1.0)
  {
    RatioBounds(part, whole);
  }

  lemma RestOf(part: real, whole: real)
    requires whole > 0.0
    ensures IsShare(1.0 - part / whole, whole - part, whole)
  {
    var q := part / whole;
    assert q * whole == part;
  }

  /** Triggering starts the cue's course at that time, whatever it was doing, unless a
      manual level holds it. */
  lemma GoShape(s: State, id: nat, t: real, x: real)
    requires id < |s.cues| && !s.cues[id].manualOverride
    ensures |Go(s, id, t).cues| == |s.cues|
    ensures RisesAndFalls(s.cues[id], t, x, WeightAndAlive(Go(s, id, t).cues[id], x))
    ensures forall i :: 0 <= i < |s.cues| && i != id ==> Go(s, id, t).cues[i] == s.cues[i]
  {
    var c := Go(s, id, t).cues[id];
    var e := x - t;
    if c.fadeInSec > 0.0 { ShareOf(e, c.fadeInSec); }
    if c.fadeOutSec > 0.0 {
      ShareOf(e - (FadeIn(c) + c.holdSec), c.fadeOutSec);
      RestOf(e - (FadeIn(c) + c.holdSec), c.fadeOutSec);
    }
  }

  /** Until its end a fade-out from weight `w0`, begun at `t`, leaves the rest of the
      time's share of it. */
  predicate FallsFrom(w0: real, t: real, fadeOutSec: real, x: real, w: Weight) {
    if fadeOutSec > 0.0 && x < t + fadeOutSec then
      w.alive && IsShare(w.w, w0 * (t + fadeOutSec - x), fadeOutSec)
    else w == Weight(0.0, false)
  }

  /** Releasing an active cue fades it linearly from the weight it had. */
  lemma ReleaseShape(s: State, id: nat, t: real, x: real)
    requires id < |s.cues| && t <= x
    requires s.cues[id].active && !s.cues[id].released && !s.cues[id].manualOverride
    ensures |Release(s, id, t).cues| == |s.cues|
    ensures FallsFrom(WeightAndAlive(s.cues[id], t).w, t, s.cues[id].fadeOutSec, x,
                      WeightAndAlive(Release(s, id, t).cues[id], x))
    ensures forall i :: 0 <= i < |s.cues| && i != id ==> Release(s, id, t).cues[i] == s.cues[i]
  {
    Falls(WeightAndAlive(s.cues[id], t).w, t, s.cues[id].fadeOutSec, x,
          WeightAndAlive(Release(s, id, t).cues[id], x));
  }

  lemma Falls(w0: real, t: real, fadeOutSec: real, x: real, w: Weight)
    requires t <= x
    requires w == if fadeOutSec <= 0.0 || (x - t) / fadeOutSec >= 1.0 then Weight(0.0, false)
                  else Weight(w0 * (1.0 - (x - t) / fadeOutSec), true)
    ensures FallsFrom(w0, t, fadeOutSec, x, w)
  {
    if fadeOutSec > 0.0 {
      ShareOf(x - t, fadeOutSec);
      RestOf(x - t, fadeOutSec);
      ShareOfShare(w0, 1.0 - (x - t) / fadeOutSec, t + fadeOutSec - x, fadeOutSec);
    }
  }

  lemma ShareOfShare(w: real, x: real, part: real, whole: real)
    requires IsShare(x, part, whole)
    ensures IsShare(w * x, w * part, whole)
  {
    assert (w * x) * whole == w * (x * whole);
  }

  /** A positive manual level is the cue's weight at all times, at most 1; any other
      puts the cue out. */
  lemma ManualHolds(s: State, id: nat, level: real, x: real)
    requires id < |s.cues|
    ensures var s' := SetManualLevel(s, id, level);
            |s'.cues| == |s.cues| &&
            (if level > 0.0 then
               s'.cues[id].active && WeightAndAlive(s'.cues[id], x) == Weight(if level < 1.0 then level else 1.0, true)
             else !s'.cues[id].active && WeightAndAlive(s'.cues[id], x) == Weight(0.0, false)) &&
            forall i :: 0 <= i < |s.cues| && i != id ==> s'.cues[i] == s.cues[i]
  {
  }

  /** Until the counter wraps a cue just triggered fires after every other active cue
      of its priority or a lower one. */
  lemma LatestGoOutranks(s: State, id: nat, now: real, t: real, other: nat)
    requires Valid(s, now) && id < |s.cues| && other < |s.cues| && other != id
    requires s.activations < SEQ_MODULUS && s.cues[other].active
    requires s.cues[other].priority <= s.cues[id].priority
    ensures var cues := Go(s, id, t).cues;
            other < |cues| && id < |cues| && cues[id].active && RankLess(RankOf(cues[other]), RankOf(cues[id]))
  {
  }

  // ---- scenes ------------------------------------------------------------

  /** Running since `t`. */
  predicate RunningSince(cue: Cue, t: real) {
    cue.active && !cue.released && cue.goTime == t
  }

  lemma {:induction false} AllRunning(s: State, ids: seq<nat>, t: real)
    ensures |GoAll(s, ids, t).cues| == |s.cues|
    ensures forall id :: id in ids && id < |s.cues| ==> RunningSince(GoAll(s, ids, t).cues[id], t)
    ensures forall id :: id !in ids && 0 <= id < |s.cues| ==> GoAll(s, ids, t).cues[id] == s.cues[id]
  {
    if ids == [] {
    } else {
      var front, last := ids[..|ids| - 1], ids[|ids| - 1];
      AllRunning(s, front, t);
      assert ids == front + [last];
    }
  }

  /** Triggering a scene starts its cues and no other. */
  lemma SceneStarts(s: State, scene: nat, t: real, id: nat)
    requires scene < |s.scenes| && id < |s.cues|
    ensures |GoScene(s, scene, t).cues| == |s.cues|
    ensures if id in s.scenes[scene] then RunningSince(GoScene(s, scene, t).cues[id], t)
            else GoScene(s, scene, t).cues[id] == s.cues[id]
  {
    AllRunning(s, s.scenes[scene], t);
  }

  lemma {:induction false} AllReleased(s: State, ids: seq<nat>, t: real)
    ensures |ReleaseAll(s, ids, t).cues| == |s.cues|
    ensures forall id :: id in ids && id < |s.cues| ==>
              ReleaseAll(s, ids, t).cues[id].released || !ReleaseAll(s, ids, t).cues[id].active
    ensures forall id :: id !in ids && 0 <= id < |s.cues| ==> ReleaseAll(s, ids, t).cues[id] == s.cues[id]
  {
    if ids == [] {
    } else {
      var front, last := ids[..|ids| - 1], ids[|ids| - 1];
      AllReleased(s, front, t);
      assert ids == front + [last];
    }
  }

  /** Releasing it leaves none of them held, and no other touched. */
  lemma SceneStops(s: State, scene: nat, t: real, id: nat)
    requires scene < |s.scenes| && id < |s.cues|
    ensures |ReleaseScene(s, scene, t).cues| == |s.cues|
    ensures if id in s.scenes[scene] then
              ReleaseScene(s, scene, t).cues[id].released || !ReleaseScene(s, scene, t).cues[id].active
            else ReleaseScene(s, scene, t).cues[id] == s.cues[id]
  {
    AllReleased(s, s.scenes[scene], t);
  }
}
