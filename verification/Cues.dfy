/** The cue lifecycle of show_control.cpp: what `go`, `release`,
    `setManualLevel`, `stopAll` and a frame's `evaluate` do to a cue, and what
    holds over every run of them. Times and levels are reals. */
module Cues {
  import opened Reals

  const SEQ_MODULUS: nat := 0x1_0000_0000  // activationSeq is a uint32_t

  datatype Cue = Cue(
    effects: seq<nat>,
    fadeInSec: real,
    fadeOutSec: real,
    priority: nat,
    holdSec: real,
    active: bool,
    goTime: real,
    activationSeq: nat,
    released: bool,
    releaseTime: real,
    releaseWeight: real,
    manualOverride: bool,
    manualLevel: real)

  /** `activations` counts how often `nextActivationSeq_` was ever advanced; the
      program does not store it. */
  datatype State = State(cues: seq<Cue>, scenes: seq<seq<nat>>, nextActivationSeq: nat, activations: nat)

  datatype Weight = Weight(w: real, alive: bool)

  function WeightAndAlive(cue: Cue, t: real): Weight {
    if cue.manualOverride then Weight(cue.manualLevel, true)
    else if !cue.active then Weight(0.0, false)
    else if cue.released then
      if cue.fadeOutSec <= 0.0 then Weight(0.0, false)
      else
        var fo := (t - cue.releaseTime) / cue.fadeOutSec;
        if fo >= 1.0 then Weight(0.0, false) else Weight(cue.releaseWeight * (1.0 - fo), true)
    else
      var e := t - cue.goTime;
      if e < 0.0 then Weight(0.0, true)
      else if cue.fadeInSec > 0.0 && e < cue.fadeInSec then Weight(e / cue.fadeInSec, true)
      else if cue.holdSec <= 0.0 then Weight(1.0, true)
      else
        var heldEnd := (if cue.fadeInSec > 0.0 then cue.fadeInSec else 0.0) + cue.holdSec;
        if e < heldEnd then Weight(1.0, true)
        else if cue.fadeOutSec <= 0.0 then Weight(0.0, false)
        else
          var fo := (e - heldEnd) / cue.fadeOutSec;
          if fo >= 1.0 then Weight(0.0, false) else Weight(1.0 - fo, true)
  }

  // ---- transitions -------------------------------------------------------

  function Activate(s: State, id: nat, cue: Cue): State
    requires id < |s.cues|
  {
    s.(cues := s.cues[id := cue.(activationSeq := s.nextActivationSeq)],
       nextActivationSeq := (s.nextActivationSeq + 1) % SEQ_MODULUS,
       activations := s.activations + 1)
  }

  function Go(s: State, id: nat, t: real): State {
    if id >= |s.cues| then s
    else Activate(s, id, s.cues[id].(active := true, goTime := t, released := false))
  }

  function Release(s: State, id: nat, t: real): State {
    if id >= |s.cues| || !s.cues[id].active || s.cues[id].released then s
    else
      var w := WeightAndAlive(s.cues[id], t).w;
      s.(cues := s.cues[id := s.cues[id].(released := true, releaseTime := t, releaseWeight := w)])
  }

  function SetManualLevel(s: State, id: nat, level: real): State {
    if id >= |s.cues| then s
    else
      var l := Clamp01(level);
      var cue := s.cues[id];
      if l > 0.0 then
        var held := cue.(active := true, released := false, manualOverride := true, manualLevel := l);
        if cue.active then s.(cues := s.cues[id := held]) else Activate(s, id, held)
      else
        s.(cues := s.cues[id := cue.(manualOverride := false, manualLevel := 0.0, active := false)])
  }

  function StopAll(s: State): State {
    s.(cues := seq(|s.cues|, i requires 0 <= i < |s.cues| =>
                     s.cues[i].(active := false, released := false, manualOverride := false)))
  }

  function GoAll(s: State, ids: seq<nat>, t: real): State {
    if ids == [] then s else Go(GoAll(s, ids[..|ids| - 1], t), ids[|ids| - 1], t)
  }

  function ReleaseAll(s: State, ids: seq<nat>, t: real): State {
    if ids == [] then s else Release(ReleaseAll(s, ids[..|ids| - 1], t), ids[|ids| - 1], t)
  }

  function GoScene(s: State, scene: nat, t: real): State {
    if scene >= |s.scenes| then s else GoAll(s, s.scenes[scene], t)
  }

  function ReleaseScene(s: State, scene: nat, t: real): State {
    if scene >= |s.scenes| then s else ReleaseAll(s, s.scenes[scene], t)
  }

  /** What a frame does to the cues: those found dead at `t` become inactive. */
  function Retire(cue: Cue, t: real): Cue {
    if cue.active && !WeightAndAlive(cue, t).alive then cue.(active := false) else cue
  }

  function Frame(s: State, t: real): State {
    s.(cues := seq(|s.cues|, i requires 0 <= i < |s.cues| => Retire(s.cues[i], t)))
  }

  /** Whether cue `i` contributes intents to the frame at `t`. */
  predicate Contributes(cue: Cue, t: real) {
    cue.active && WeightAndAlive(cue, t).alive && WeightAndAlive(cue, t).w > 0.0
  }

  // ---- runs --------------------------------------------------------------

  datatype Op =
    | OpGo(id: nat)
    | OpRelease(id: nat)
    | OpGoScene(scene: nat)
    | OpReleaseScene(scene: nat)
    | OpManual(id: nat, level: real)
    | OpStopAll
    | OpFrame

  datatype Event = Event(op: Op, t: real)

  function Next(s: State, e: Event): State {
    match e.op
    case OpGo(id) => Go(s, id, e.t)
    case OpRelease(id) => Release(s, id, e.t)
    case OpGoScene(scene) => GoScene(s, scene, e.t)
    case OpReleaseScene(scene) => ReleaseScene(s, scene, e.t)
    case OpManual(id, level) => SetManualLevel(s, id, level)
    case OpStopAll => StopAll(s)
    case OpFrame => Frame(s, e.t)
  }

  function Run(s: State, es: seq<Event>): State {
    if es == [] then s else Next(Run(s, es[..|es| - 1]), es[|es| - 1])
  }

  predicate NondecreasingFrom(now: real, es: seq<Event>) {
    (forall i :: 0 <= i < |es| ==> now <= es[i].t) &&
    (forall i, j :: 0 <= i < j < |es| ==> es[i].t <= es[j].t)
  }

  function EndTime(now: real, es: seq<Event>): real {
    if es == [] then now else es[|es| - 1].t
  }

  // ---- the invariant -----------------------------------------------------

  predicate ValidCue(cue: Cue, now: real) {
    (cue.manualOverride ==> cue.active && 0.0 < cue.manualLevel <= 1.0) &&
    (cue.released ==> cue.releaseTime <= now && 0.0 <= cue.releaseWeight <= 1.0)
  }

  /** While the 32-bit counter has not wrapped, active cues carry pairwise
      different sequence numbers, all below the next one. */
  predicate DistinctSeqs(s: State) {
    s.activations <= SEQ_MODULUS ==>
      (forall i :: 0 <= i < |s.cues| && s.cues[i].active ==> s.cues[i].activationSeq < s.activations) &&
      (forall i, j :: 0 <= i < j < |s.cues| && s.cues[i].active && s.cues[j].active ==>
                        s.cues[i].activationSeq != s.cues[j].activationSeq)
  }

  predicate Valid(s: State, now: real) {
    (forall i :: 0 <= i < |s.cues| ==> ValidCue(s.cues[i], now)) &&
    s.nextActivationSeq == s.activations % SEQ_MODULUS &&
    DistinctSeqs(s)
  }

  lemma WeightInUnit(cue: Cue, now: real, t: real)
    requires ValidCue(cue, now) && now <= t
    ensures 0.0 <= WeightAndAlive(cue, t).w <= 1.0
  {
    if cue.manualOverride || !cue.active {
    } else if cue.released {
      if cue.fadeOutSec > 0.0 {
        RatioBounds(t - cue.releaseTime, cue.fadeOutSec);
        var fo := (t - cue.releaseTime) / cue.fadeOutSec;
        if fo < 1.0 { ProductInUnit(cue.releaseWeight, 1.0 - fo); }
      }
    } else {
      var e := t - cue.goTime;
      if e >= 0.0 && cue.fadeInSec > 0.0 && e < cue.fadeInSec {
        RatioBounds(e, cue.fadeInSec);
      } else if e >= 0.0 && cue.holdSec > 0.0 && cue.fadeOutSec > 0.0 {
        var heldEnd := (if cue.fadeInSec > 0.0 then cue.fadeInSec else 0.0) + cue.holdSec;
        if e >= heldEnd { RatioBounds(e - heldEnd, cue.fadeOutSec); }
      }
    }
  }

  lemma ActivateKeepsValid(s: State, id: nat, cue: Cue, now: real, t: real)
    requires Valid(s, now) && now <= t && id < |s.cues| && cue.active
    requires ValidCue(cue, t)
    ensures Valid(Activate(s, id, cue), t)
  {
    var s' := Activate(s, id, cue);
    assert s'.nextActivationSeq == s'.activations % SEQ_MODULUS by {
      NextMod(s.activations);
    }
    if s'.activations <= SEQ_MODULUS {
      assert s.nextActivationSeq == s.activations;
    }
  }

  lemma NextMod(n: nat)
    ensures (n % SEQ_MODULUS + 1) % SEQ_MODULUS == (n + 1) % SEQ_MODULUS
  {
  }

  lemma GoKeepsValid(s: State, id: nat, now: real, t: real)
    requires Valid(s, now) && now <= t
    ensures Valid(Go(s, id, t), t)
  {
    if id < |s.cues| {
      ActivateKeepsValid(s, id, s.cues[id].(active := true, goTime := t, released := false), now, t);
    }
  }

  lemma ReleaseKeepsValid(s: State, id: nat, now: real, t: real)
    requires Valid(s, now) && now <= t
    ensures Valid(Release(s, id, t), t)
  {
    if id < |s.cues| {
      WeightInUnit(s.cues[id], now, t);
    }
  }

  lemma ManualKeepsValid(s: State, id: nat, level: real, now: real, t: real)
    requires Valid(s, now) && now <= t
    ensures Valid(SetManualLevel(s, id, level), t)
  {
    if id < |s.cues| && Clamp01(level) > 0.0 && !s.cues[id].active {
      ActivateKeepsValid(s, id, s.cues[id].(active := true, released := false, manualOverride := true,
                                           manualLevel := Clamp01(level)), now, t);
    }
  }

  lemma {:induction false} GoAllKeepsValid(s: State, ids: seq<nat>, now: real, t: real)
    requires Valid(s, now) && now <= t
    ensures Valid(GoAll(s, ids, t), t)
  {
    if ids == [] {
    } else {
      GoAllKeepsValid(s, ids[..|ids| - 1], now, t);
      GoKeepsValid(GoAll(s, ids[..|ids| - 1], t), ids[|ids| - 1], t, t);
    }
  }

  lemma {:induction false} ReleaseAllKeepsValid(s: State, ids: seq<nat>, now: real, t: real)
    requires Valid(s, now) && now <= t
    ensures Valid(ReleaseAll(s, ids, t), t)
  {
    if ids == [] {
    } else {
      ReleaseAllKeepsValid(s, ids[..|ids| - 1], now, t);
      ReleaseKeepsValid(ReleaseAll(s, ids[..|ids| - 1], t), ids[|ids| - 1], t, t);
    }
  }

  lemma NextKeepsValid(s: State, e: Event, now: real)
    requires Valid(s, now) && now <= e.t
    ensures Valid(Next(s, e), e.t)
  {
    match e.op {
      case OpGo(id) => GoKeepsValid(s, id, now, e.t);
      case OpRelease(id) => ReleaseKeepsValid(s, id, now, e.t);
      case OpGoScene(scene) => if scene < |s.scenes| { GoAllKeepsValid(s, s.scenes[scene], now, e.t); }
      case OpReleaseScene(scene) => if scene < |s.scenes| { ReleaseAllKeepsValid(s, s.scenes[scene], now, e.t); }
      case OpManual(id, level) => ManualKeepsValid(s, id, level, now, e.t);
      case OpStopAll =>
      case OpFrame =>
    }
  }

  /** Over every run with a nondecreasing clock the invariant holds: manual
      override implies active, sequence numbers are distinct until the counter
      wraps, and every later weight lies in [0,1]. */
  lemma {:induction false} RunKeepsValid(s: State, es: seq<Event>, now: real)
    requires Valid(s, now) && NondecreasingFrom(now, es)
    ensures Valid(Run(s, es), EndTime(now, es))
    ensures forall i, t :: 0 <= i < |Run(s, es).cues| && EndTime(now, es) <= t ==>
              0.0 <= WeightAndAlive(Run(s, es).cues[i], t).w <= 1.0
  {
    if es == [] {
    } else {
      var before := es[..|es| - 1];
      RunKeepsValid(s, before, now);
      NextKeepsValid(Run(s, before), es[|es| - 1], EndTime(now, before));
    }
    forall i, t | 0 <= i < |Run(s, es).cues| && EndTime(now, es) <= t
      ensures 0.0 <= WeightAndAlive(Run(s, es).cues[i], t).w <= 1.0
    {
      WeightInUnit(Run(s, es).cues[i], EndTime(now, es), t);
    }
  }

  // ---- releasing ---------------------------------------------------------

  /** A fade-out that started at `t`. */
  lemma FadeValue(r: Cue, t: real, t1: real, t2: real)
    requires r.active && r.released && !r.manualOverride && r.fadeOutSec > 0.0
    requires r.releaseTime == t <= t1 <= t2 && 0.0 <= r.releaseWeight <= 1.0
    ensures WeightAndAlive(r, t1).alive <==> t1 < t + r.fadeOutSec
    ensures WeightAndAlive(r, t2).w <= WeightAndAlive(r, t1).w
    ensures t1 == t ==> WeightAndAlive(r, t1).w == r.releaseWeight
  {
    var fo1, fo2 := (t1 - t) / r.fadeOutSec, (t2 - t) / r.fadeOutSec;
    RatioBounds(t1 - t, r.fadeOutSec);
    RatioBounds(t2 - t, r.fadeOutSec);
    DivMono(t1 - t, t2 - t, r.fadeOutSec);
    MulMono(1.0 - fo2, 1.0 - fo1, r.releaseWeight);
    if fo1 < 1.0 { ProductInUnit(r.releaseWeight, 1.0 - fo1); }
    if t1 == t { assert fo1 == 0.0 by { DivMono(t1 - t, 0.0, r.fadeOutSec); } }
  }

  /** Releasing a live, non-manual cue that has a fade-out starts a fade that
      begins exactly at the weight the cue had, never rises, and is over at
      `t + fadeOutSec`: from then on, and not before, a frame retires the cue. */
  lemma ReleaseFades(s: State, id: nat, now: real, t: real, t1: real, t2: real)
    requires Valid(s, now) && now <= t <= t1 <= t2
    requires id < |s.cues|
    requires var c := s.cues[id]; c.active && !c.released && !c.manualOverride && c.fadeOutSec > 0.0
    requires WeightAndAlive(s.cues[id], t).alive
    ensures var c := s.cues[id]; var r := Release(s, id, t).cues[id];
            WeightAndAlive(r, t).w == WeightAndAlive(c, t).w &&
            WeightAndAlive(r, t2).w <= WeightAndAlive(r, t1).w &&
            (WeightAndAlive(r, t1).alive <==> t1 < t + c.fadeOutSec) &&
            (Frame(Release(s, id, t), t1).cues[id].active <==> t1 < t + c.fadeOutSec)
  {
    var c := s.cues[id];
    var r := Release(s, id, t).cues[id];
    var w := WeightAndAlive(c, t).w;
    WeightInUnit(c, now, t);
    assert r.released && r.releaseTime == t && r.releaseWeight == w && r.fadeOutSec == c.fadeOutSec;
    FadeValue(r, t, t, t);
    FadeValue(r, t, t1, t2);
  }

  /** Until a cue is triggered again, what happens to it after its release. */
  predicate Leaves(e: Event, s: State, id: nat) {
    match e.op
    case OpGo(i) => i != id
    case OpGoScene(scene) => scene >= |s.scenes| || id !in s.scenes[scene]
    case OpManual(i, _) => i != id
    case _ => true
  }

  predicate LeavesAll(es: seq<Event>, s: State, id: nat) {
    forall i :: 0 <= i < |es| ==> Leaves(es[i], s, id)
  }

  lemma {:induction false} GoAllOthers(s: State, ids: seq<nat>, t: real, id: nat)
    requires id < |s.cues| && id !in ids
    ensures |GoAll(s, ids, t).cues| == |s.cues| && GoAll(s, ids, t).cues[id] == s.cues[id]
    ensures GoAll(s, ids, t).scenes == s.scenes
  {
    if ids == [] {
    } else {
      GoAllOthers(s, ids[..|ids| - 1], t, id);
    }
  }

  lemma {:induction false} ReleaseAllStays(s: State, ids: seq<nat>, t: real, id: nat)
    requires id < |s.cues| && (s.cues[id].released || !s.cues[id].active)
    ensures |ReleaseAll(s, ids, t).cues| == |s.cues| && ReleaseAll(s, ids, t).cues[id] == s.cues[id]
    ensures ReleaseAll(s, ids, t).scenes == s.scenes
  {
    if ids == [] {
    } else {
      ReleaseAllStays(s, ids[..|ids| - 1], t, id);
    }
  }

  /** A released cue, or an inactive one, that nothing triggers stays what it is
      or is retired. */
  lemma {:induction false} LeftAlone(s: State, es: seq<Event>, id: nat)
    requires id < |s.cues| && !s.cues[id].manualOverride
    requires s.cues[id].released || !s.cues[id].active
    requires LeavesAll(es, s, id)
    ensures var r := Run(s, es);
            |r.cues| == |s.cues| && r.scenes == s.scenes && !r.cues[id].manualOverride &&
            (r.cues[id] == s.cues[id] || !r.cues[id].active)
  {
    if es == [] {
    } else {
      var before := es[..|es| - 1];
      LeftAlone(s, before, id);
      var m := Run(s, before);
      var e := es[|es| - 1];
      assert Leaves(e, s, id);
      match e.op {
        case OpGoScene(scene) => if scene < |m.scenes| { GoAllOthers(m, m.scenes[scene], e.t, id); }
        case OpReleaseScene(scene) => if scene < |m.scenes| { ReleaseAllStays(m, m.scenes[scene], e.t, id); }
        case _ =>
      }
    }
  }

  /** Whatever else happens after a release, the first frame at or past the end
      of the fade finds the cue dead: after it the cue is inactive. */
  lemma ReleasedCueIsRetired(s: State, id: nat, now: real, t: real, es: seq<Event>, tf: real)
    requires Valid(s, now) && now <= t
    requires id < |s.cues|
    requires var c := s.cues[id]; c.active && !c.released && !c.manualOverride
    requires LeavesAll(es, s, id)
    requires tf >= t + s.cues[id].fadeOutSec && tf >= t
    ensures id < |Run(Release(s, id, t), es).cues|
    ensures !Frame(Run(Release(s, id, t), es), tf).cues[id].active
  {
    var r := Release(s, id, t);
    assert forall i :: 0 <= i < |es| ==> Leaves(es[i], s, id) ==> Leaves(es[i], r, id);
    LeftAlone(r, es, id);
    if r.cues[id].fadeOutSec > 0.0 {
      RatioBounds(tf - t, r.cues[id].fadeOutSec);
    }
  }

  // ---- stopAll -----------------------------------------------------------

  /** An event that cannot put a cue into play. */
  predicate Quiet(e: Event) {
    !e.op.OpGo? && !e.op.OpGoScene? && (e.op.OpManual? ==> e.op.level <= 0.0)
  }

  predicate AllInactive(s: State) {
    forall i :: 0 <= i < |s.cues| ==> !s.cues[i].active && !s.cues[i].manualOverride
  }

  lemma {:induction false} ReleaseAllQuiet(s: State, ids: seq<nat>, t: real)
    requires AllInactive(s)
    ensures ReleaseAll(s, ids, t) == s
  {
    if ids == [] {
    } else {
      ReleaseAllQuiet(s, ids[..|ids| - 1], t);
    }
  }

  /** After `stopAll` no cue contributes to any frame until the next `go`,
      `goScene` or positive `setManualLevel`. */
  lemma {:induction false} SilentAfterStopAll(s: State, es: seq<Event>, t: real)
    requires forall i :: 0 <= i < |es| ==> Quiet(es[i])
    ensures var r := Run(StopAll(s), es);
            AllInactive(r) && forall i :: 0 <= i < |r.cues| ==> !Contributes(r.cues[i], t)
  {
    if es == [] {
    } else {
      var before := es[..|es| - 1];
      SilentAfterStopAll(s, before, t);
      var m := Run(StopAll(s), before);
      var e := es[|es| - 1];
      assert Quiet(e);
      match e.op {
        case OpReleaseScene(scene) => if scene < |m.scenes| { ReleaseAllQuiet(m, m.scenes[scene], e.t); }
        case _ =>
      }
    }
  }
}
