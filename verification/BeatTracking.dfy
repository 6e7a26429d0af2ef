/** How the clock of beat_clock.cpp follows a tempo: what it hears in a beat, how
    far one correction takes it and how near a run of them brings it. */
module BeatTracking {
  import opened Reals
  import opened BeatModel

  // ---- what a beat says --------------------------------------------------

  /** `n` is the whole number of periods nearest to `dt`, but at least one. */
  predicate NearestBeats(n: int, dt: real, period: real) {
    n >= 1 && 2.0 * dt <= (2 * n + 1) as real * period && (n == 1 || (2 * n - 1) as real * period <= 2.0 * dt)
  }

  /** The beat tells of the period `target`: the tempo it reports, or the time since
      the last beat shared among the beats that fit it. */
  ghost predicate Tells(m: Model, e: BeatEvent, target: real) {
    if e.bpm > 0.0 then target * e.bpm == 60000000.0
    else (exists n: int :: Shares(n, m, e, target))
  }

  /** `n` beats fit since the last one, `target` each. */
  predicate Shares(n: int, m: Model, e: BeatEvent, target: real) {
    var dt := e.t as real - m.lastEvent;
    NearestBeats(n, dt, m.period) && target * n as real == dt
  }

  /** Whether a period lies between 40 and 220 beats a minute. */
  predicate Sane(target: real) {
    220.0 * target >= 60000000.0 && 40.0 * target <= 60000000.0
  }

  predicate WithinTwofold(period: real, target: real) {
    target <= 2.0 * period && period <= 2.0 * target
  }

  /** The clock predicts the whole beat `k` off by `error` at time `t`. */
  predicate OffBy(m: Model, t: real, k: int, error: real) {
    (k as real + error - m.anchorBeat) * m.period == t - m.anchorT
  }

  lemma Quotient(a: real, b: real, q: real)
    requires b > 0.0
    ensures a / b == q <==> a == q * b
  {
    var x := a / b;
    assert x * b == a;
    if x < q { MulMonoStrict(x, q, b); }
    if q < x { MulMonoStrict(q, x, b); }
  }

  lemma BoundsAreSane(target: real)
    ensures ABS_MIN_PERIOD <= target <= ABS_MAX_PERIOD <==> Sane(target)
  {
    assert ABS_MIN_PERIOD * 220.0 == 60000000.0 && ABS_MAX_PERIOD * 40.0 == 60000000.0;
  }

  lemma RoundedBeats(dt: real, period: real) returns (n: int)
    requires period > 0.0
    ensures n == (if Round(dt / period) < 1 then 1 else Round(dt / period)) && NearestBeats(n, dt, period)
  {
    var q := dt / period;
    assert q * period == dt;
    n := if Round(q) < 1 then 1 else Round(q);
    MulMono(q, n as real + 0.5, period);
    if n > 1 { MulMono(n as real - 0.5, q, period); }
  }

  /** What the clock takes the beat to mean is what it tells. */
  lemma {:induction false} Understood(m: Model, e: BeatEvent)
    requires m.period > 0.0
    ensures Tells(m, e, TargetPeriod(m, e))
  {
    if e.bpm > 0.0 {
      Quotient(60000000.0, e.bpm, TargetPeriod(m, e));
    } else {
      UnderstoodInterval(m, e, e.t as real - m.lastEvent);
    }
  }

  lemma {:induction false} UnderstoodInterval(m: Model, e: BeatEvent, dt: real)
    requires m.period > 0.0 && e.bpm <= 0.0 && dt == e.t as real - m.lastEvent
    ensures exists n: int :: Shares(n, m, e, TargetPeriod(m, e))
  {
    var target := TargetPeriod(m, e);
    var n := Measured(dt, m.period, target);
    assert Shares(n, m, e, target);
  }

  lemma Measured(dt: real, period: real, target: real) returns (n: int)
    requires period > 0.0
    requires target == dt / (if Round(dt / period) < 1 then 1.0 else Round(dt / period) as real)
    ensures NearestBeats(n, dt, period) && target * n as real == dt
  {
    n := RoundedBeats(dt, period);
    Quotient(dt, n as real, target);
  }

  lemma HalfOf(x: real, y: real)
    ensures x < y / MAX_PERIOD_JUMP <==> 2.0 * x < y
  {
  }

  /** What a beat that tells of `target` does. */
  ghost predicate Follows(m: Model, e: BeatEvent, target: real)
    requires m.period > 0.0
  {
    if Sane(target) && (m.tempoKnown ==> WithinTwofold(m.period, target)) then Taken(m, e, target)
    else OnBeat(m, e) == m.(lastKnown := if e.t as real > m.lastKnown then e.t as real else m.lastKnown)
  }

  /** A later beat is taken exactly when the period it tells of is between 40 and 220
      beats a minute and, once a tempo is known, within a factor of two of the
      present one. Otherwise only the time is noted. */
  lemma TakenExactly(m: Model, e: BeatEvent)
    requires Sound(m) && m.lastEvent >= 0.0
    ensures e.bpm != 0.0 && (e.bpm < 40.0 || e.bpm > 220.0) ==> OnBeat(m, e) == m
    ensures e.bpm == 0.0 || 40.0 <= e.bpm <= 220.0 ==>
              m.period > 0.0 && exists target :: Tells(m, e, target) && Follows(m, e, target)
  {
    PositivePeriod(m);
    if e.bpm == 0.0 || 40.0 <= e.bpm <= 220.0 {
      var target := TargetPeriod(m, e);
      Understood(m, e);
      BoundsAreSane(target);
      HalfOf(target, m.period);
      assert WildJump(m, target) <==> m.tempoKnown && !WithinTwofold(m.period, target);
      if Sane(target) && (m.tempoKnown ==> WithinTwofold(m.period, target)) { TakenSteers(m, e, target); }
    }
  }

  // ---- one correction ----------------------------------------------------

  /** The new period: 15% of the way to the target, and a tenth of the phase error
      slower, within 40..220 beats a minute. */
  predicate Steered(period: real, target: real, error: real, period': real) {
    SteeredBy(period, target, error * period, period')
  }

  predicate SteeredBy(period: real, target: real, errorTime: real, period': real) {
    var asked := 0.85 * period + 0.15 * target + 0.1 * errorTime;
    if 220.0 * asked < 60000000.0 then 220.0 * period' == 60000000.0
    else if 40.0 * asked > 60000000.0 then 40.0 * period' == 60000000.0
    else period' == asked
  }

  /** Where the bar starts once a beat was counted as `beat`. */
  predicate BarCounted(m: Model, e: BeatEvent, m': Model) {
    if e.isDownbeat then m'.haveBar && m'.barAnchor == m'.anchorBeat
    else if 1 <= e.beatInBar <= 4 then m'.haveBar && m'.anchorBeat - m'.barAnchor == e.beatInBar as real - 1.0
    else m'.haveBar == m.haveBar && m'.barAnchor == m.barAnchor
  }

  /** What taking a beat does. Off by `error` from the whole beat `k`, the clock keeps
      its beat number when ahead, makes up 15% when behind, and steers its period. */
  ghost predicate Taken(m: Model, e: BeatEvent, target: real)
    requires m.period > 0.0
  {
    var t, m' := e.t as real, OnBeat(m, e);
    (exists k: int, error: real :: OffBy(m, t, k, error) && -0.5 <= error <= 0.5 &&
       m'.anchorBeat == k as real + (if error < 0.0 then 0.85 * error else error) &&
       Steered(m.period, target, error, m'.period)) &&
    m'.anchorT == t && m'.lastEvent == t && m'.running && m'.tempoKnown && BarCounted(m, e, m')
  }

  lemma SteeredPeriod(period: real, target: real, error: real)
    ensures Steered(period, target, error, NewPeriod(period, target, error))
  {
    var asked := 0.85 * period + 0.15 * target + 0.1 * (error * period);
    assert period + PERIOD_GAIN * (target - period) + PHASE_TO_PERIOD_GAIN * (error * period) == asked;
    BoundsAreSane(asked);
    assert ABS_MIN_PERIOD * 220.0 == 60000000.0 && ABS_MAX_PERIOD * 40.0 == 60000000.0;
  }

  lemma PredictedOff(m: Model, t: real) returns (k: int, error: real)
    requires m.period > 0.0
    ensures OffBy(m, t, k, error) && -0.5 <= error <= 0.5
    ensures error == PhaseError(m, t) && k as real + error == ContinuousBeat(m, t)
  {
    var q := (t - m.anchorT) / m.period;
    assert q * m.period == t - m.anchorT;
    k, error := Round(ContinuousBeat(m, t)), PhaseError(m, t);
    assert k as real + error - m.anchorBeat == q;
  }

  lemma TakenSteers(m: Model, e: BeatEvent, target: real)
    requires Sound(m) && m.lastEvent >= 0.0 && m.period > 0.0 && target == TargetPeriod(m, e)
    requires !ReportsGarbage(e.bpm) && Accepts(m, e)
    ensures Taken(m, e, target)
  {
    var k, error := PredictedOff(m, e.t as real);
    SteeredPeriod(m.period, target, error);
    var n := Note(m, e.t as real);
    assert ContinuousBeat(n, e.t as real) == ContinuousBeat(m, e.t as real) && TargetPeriod(n, e) == target;
    assert OnBeat(m, e) == Corrected(n, e);
  }

  /** Of two corrections towards one target, the one further ahead is the slower. */
  lemma AheadIsSlower(period: real, target: real, e1: real, e2: real, p1: real, p2: real)
    requires period > 0.0 && e1 < e2 && Steered(period, target, e1, p1) && Steered(period, target, e2, p2)
    ensures p1 <= p2
    ensures 40.0 * p1 < 60000000.0 && 220.0 * p2 > 60000000.0 ==> p1 < p2
  {
    MulMonoStrict(e1, e2, period);
  }

  /** On the beat, 85% of the distance to a sane target is left. */
  lemma OnTheBeat(period: real, target: real, period': real)
    requires Sane(period) && Sane(target) && Steered(period, target, 0.0, period')
    ensures target - period' == 0.85 * (target - period)
  {
    assert 0.0 * period == 0.0;
  }

  lemma HalfBeat(error: real, period: real)
    requires -0.5 <= error <= 0.5 && 0.0 <= period
    ensures -0.5 * period <= error * period <= 0.5 * period
  {
    assert 0.0 <= (0.5 - error) * period == 0.5 * period - error * period;
    assert 0.0 <= (error + 0.5) * period == error * period + 0.5 * period;
  }

  /** Whatever the phase, a beat taken leaves at most that and a twentieth of the
      period. */
  lemma OffTheBeat(period: real, target: real, error: real, period': real)
    requires Sane(period) && Sane(target) && Steered(period, target, error, period') && -0.5 <= error <= 0.5
    ensures Abs(target - period') <= 0.85 * Abs(target - period) + 0.05 * period
  {
    var x := ErrorTime(error, period);
    SteeredNear(period, target, x, period');
  }

  lemma ErrorTime(error: real, period: real) returns (x: real)
    requires -0.5 <= error <= 0.5 && Sane(period)
    ensures x == error * period && -0.5 * period <= x <= 0.5 * period
  {
    x := error * period;
    HalfBeat(error, period);
  }

  lemma SteeredNear(period: real, target: real, x: real, period': real)
    requires Sane(period) && Sane(target) && -0.5 * period <= x <= 0.5 * period
    requires SteeredBy(period, target, x, period')
    ensures Abs(target - period') <= 0.85 * Abs(target - period) + 0.05 * period
  {
    var asked := 0.85 * period + 0.15 * target + 0.1 * x;
    assert Abs(target - asked) <= 0.85 * Abs(target - period) + 0.05 * period;
    assert Abs(target - period') <= Abs(target - asked);
  }

  // ---- runs at one tempo -------------------------------------------------

  function Power(x: real, n: nat): real {
    if n == 0 then 1.0 else x * Power(x, n - 1)
  }

  lemma PeriodOf(bpm: real, target: real)
    requires bpm > 0.0 && target * bpm == 60000000.0
    ensures PeriodFor(bpm) == target
  {
    Quotient(60000000.0, bpm, target);
  }

  /** A beat that reports `bpm` where the clock predicts a whole beat. */
  ghost predicate OnPhase(m: Model, op: Op, bpm: real) {
    op.Beat? && op.e.bpm == bpm && Whole(m, op.e.t as real)
  }

  /** The clock predicts a whole beat at time `t`. */
  ghost predicate Whole(m: Model, t: real) {
    exists k: int :: OffBy(m, t, k, 0.0)
  }

  /** Each call reports `bpm`: a tempo message, or a beat on phase. */
  ghost predicate Reports(m: Model, op: Op, bpm: real)
    requires Sound(m)
  {
    op == Tempo(bpm) || OnPhase(m, op, bpm)
  }

  ghost predicate AllReport(m: Model, ops: seq<Op>, bpm: real)
    requires Sound(m)
  {
    ops == [] ||
    (AllReport(m, ops[..|ops| - 1], bpm) && Reports(Run(m, ops[..|ops| - 1]), ops[|ops| - 1], bpm))
  }

  lemma OnPhaseError(m: Model, t: real)
    requires m.period > 0.0 && Whole(m, t)
    ensures PhaseError(m, t) == 0.0
  {
    var k: int :| OffBy(m, t, k, 0.0);
    Quotient(t - m.anchorT, m.period, k as real + 0.0 - m.anchorBeat);
    RoundWhole(k);
  }

  lemma RoundWhole(k: int)
    ensures Round(k as real) == k
  {
    var r := Round(k as real);
    assert -0.5 <= (r - k) as real <= 0.5;
  }

  /** A clock that knows a tempo. */
  predicate Knows(m: Model) {
    Sound(m) && m.tempoKnown && m.lastEvent >= 0.0
  }

  predicate IsPeriodOf(target: real, bpm: real) {
    40.0 <= bpm <= 220.0 && target * bpm == 60000000.0
  }

  lemma JumpIsTwofold(m: Model, bpm: real, target: real)
    requires Knows(m) && IsPeriodOf(target, bpm)
    ensures PeriodFor(bpm) == target && Sane(target) && Sane(m.period) && m.period > 0.0
    ensures WildJump(m, target) <==> !WithinTwofold(m.period, target)
  {
    PeriodOf(bpm, target);
    PeriodForBounds(bpm);
    HalfOf(target, m.period);
    BoundsAreSane(m.period);
    BoundsAreSane(target);
  }

  lemma {:induction false} TempoShrinks(m: Model, bpm: real, target: real)
    requires Knows(m) && IsPeriodOf(target, bpm)
    ensures Knows(OnTempo(m, bpm))
    ensures if WithinTwofold(m.period, target) then target - OnTempo(m, bpm).period == 0.85 * (target - m.period)
            else OnTempo(m, bpm).period == m.period
  {
    JumpIsTwofold(m, bpm, target);
    if WithinTwofold(m.period, target) {
      SteeredPeriod(m.period, target, 0.0);
      OnTheBeat(m.period, target, OnTempo(m, bpm).period);
    }
  }

  lemma {:induction false} BeatShrinks(m: Model, e: BeatEvent, target: real)
    requires Knows(m) && IsPeriodOf(target, e.bpm) && Whole(m, e.t as real)
    ensures Knows(OnBeat(m, e))
    ensures if WithinTwofold(m.period, target) then target - OnBeat(m, e).period == 0.85 * (target - m.period)
            else OnBeat(m, e).period == m.period
  {
    JumpIsTwofold(m, e.bpm, target);
    OnBeatSound(m, e);
    var n := Note(m, e.t as real);
    assert Accepts(n, e) <==> WithinTwofold(m.period, target) by { BoundsAreSane(target); }
    if WithinTwofold(m.period, target) {
      OnPhaseError(m, e.t as real);
      assert PhaseError(n, e.t as real) == 0.0;
      SteeredPeriod(m.period, target, 0.0);
      OnTheBeat(m.period, target, NewPeriod(m.period, target, 0.0));
    }
  }

  /** A report of a tempo within a factor of two of the known one leaves 85% of the
      distance; any other changes no period. */
  lemma {:induction false} ReportShrinks(m: Model, op: Op, bpm: real, target: real)
    requires Knows(m) && IsPeriodOf(target, bpm) && Reports(m, op, bpm)
    ensures Knows(Next(m, op))
    ensures if WithinTwofold(m.period, target) then target - Next(m, op).period == 0.85 * (target - m.period)
            else Next(m, op).period == m.period
  {
    if op.Beat? { BeatShrinks(m, op.e, target); } else { TempoShrinks(m, bpm, target); }
  }

  lemma StaysTwofold(p: real, target: real, p': real)
    requires Sane(p) && Sane(target) && WithinTwofold(p, target) && target - p' == 0.85 * (target - p)
    ensures WithinTwofold(p', target)
  {
  }

  /** The distance left after `n` reports. */
  predicate Left(p: real, target: real, n: nat, p': real) {
    if WithinTwofold(p, target) then WithinTwofold(p', target) && target - p' == Power(0.85, n) * (target - p)
    else p' == p
  }

  lemma LeftNext(p: real, target: real, n: nat, q: real, p': real)
    requires Left(p, target, n, q) && Sane(q) && Sane(target)
    requires if WithinTwofold(q, target) then target - p' == 0.85 * (target - q) else p' == q
    ensures Left(p, target, n + 1, p')
  {
    if WithinTwofold(p, target) {
      Scaled(0.85, Power(0.85, n), target - p, target - q);
      StaysTwofold(q, target, p');
    }
  }

  /** Any number of reports of one tempo: within a factor of two of it, the n-th
      leaves 0.85 to the n of the distance; from further off the clock never moves. */
  lemma {:induction false} ReportsConverge(m: Model, ops: seq<Op>, bpm: real, target: real)
    requires Knows(m) && IsPeriodOf(target, bpm) && AllReport(m, ops, bpm)
    ensures Knows(Run(m, ops)) && Left(m.period, target, |ops|, Run(m, ops).period)
  {
    if ops == [] {
    } else {
      var before, op := ops[..|ops| - 1], ops[|ops| - 1];
      ReportsConverge(m, before, bpm, target);
      var n := Run(m, before);
      ReportShrinks(n, op, bpm, target);
      JumpIsTwofold(n, bpm, target);
      LeftNext(m.period, target, |before|, n.period, Next(n, op).period);
    }
  }

  lemma Scaled(x: real, p: real, d: real, d': real)
    requires d' == p * d
    ensures x * d' == (x * p) * d
  {
  }

  // ---- bars --------------------------------------------------------------

  /** Right after a beat said to be number `beatInBar` of its bar, the bar position is
      that number counted from zero. */
  lemma BarPositionAtBeat(m: Model, e: BeatEvent)
    requires Sound(m) && OnBeat(m, e).lastEvent == e.t as real && OnBeat(m, e).running
    requires OnBeat(m, e).anchorT == e.t as real && BarCounted(m, e, OnBeat(m, e))
    requires e.isDownbeat || 1 <= e.beatInBar <= 4
    ensures OnBeat(m, e).period > 0.0
    ensures var m' := OnBeat(m, e);
            m'.haveBar &&
            Reading(m', e.t as real) - m'.barAnchor == if e.isDownbeat then 0.0 else e.beatInBar as real - 1.0
  {
    OnBeatSound(m, e);
    AtAnchor(OnBeat(m, e));
  }

  /** A first beat is beat zero, at the tempo it reports if any. */
  lemma FirstBeatTaken(m: Model, e: BeatEvent)
    requires Sound(m) && m.lastEvent < 0.0 && (e.bpm == 0.0 || 40.0 <= e.bpm <= 220.0)
    ensures var m' := OnBeat(m, e);
            m'.anchorT == e.t as real && m'.anchorBeat == 0.0 && m'.lastEvent == e.t as real && m'.running &&
            (if e.bpm == 0.0 then m'.period == m.period && m'.tempoKnown == m.tempoKnown
             else m'.tempoKnown && m'.period * e.bpm == 60000000.0) &&
            BarCounted(m, e, m')
  {
    if e.bpm > 0.0 { Quotient(60000000.0, e.bpm, PeriodFor(e.bpm)); }
  }

  // ---- taps --------------------------------------------------------------

  predicate Ascending(s: seq<real>) {
    forall i, j :: 0 <= i < j < |s| ==> s[i] <= s[j]
  }

  lemma InsertedFirst(x: real, s: seq<real>)
    ensures Inserted(x, s)[0] == x || (s != [] && Inserted(x, s)[0] == s[0])
  {
  }

  lemma {:induction false} InsertedAscending(x: real, s: seq<real>)
    requires Ascending(s)
    ensures Ascending(Inserted(x, s))
  {
    if s == [] || x <= s[0] {
    } else {
      InsertedAscending(x, s[1..]);
      InsertedFirst(x, s[1..]);
    }
  }

  lemma {:induction false} SortedAscending(s: seq<real>)
    ensures Ascending(Sorted(s))
  {
    if s == [] {
    } else {
      SortedAscending(s[..|s| - 1]);
      InsertedAscending(s[|s| - 1], Sorted(s[..|s| - 1]));
    }
  }

  lemma MiddleOfPair(s: seq<real>, b: real, c: real)
    requires |s| == 3 && Ascending(s) && multiset(s) == multiset{b, b, c}
    ensures s[1] == b
  {
    assert s == [s[0], s[1], s[2]];
    assert multiset(s) == multiset{s[0], s[1], s[2]};
    assert multiset(s)[b] >= 2;
    assert s[0] <= s[1] <= s[2];
  }

  function Sum(s: seq<real>): real {
    if s == [] then 0.0 else Sum(s[..|s| - 1]) + s[|s| - 1]
  }

  predicate Near(x: real, median: real) {
    0.7 * median <= x <= 1.3 * median
  }

  lemma NearIsKept(x: real, median: real)
    requires median > 0.0
    ensures Kept(x, median) <==> Near(x, median)
  {
    var d := Abs(x - median);
    var q := d / median;
    assert q * median == d;
    if q <= 0.3 { MulMono(q, 0.3, median); } else { MulMonoStrict(0.3, q, median); }
  }

  lemma {:induction false} AllKept(s: seq<real>, median: real)
    requires median > 0.0 && forall i :: 0 <= i < |s| ==> Near(s[i], median)
    ensures KeptSum(s, median) == (Sum(s), |s|)
  {
    if s == [] {
    } else {
      AllKept(s[..|s| - 1], median);
      NearIsKept(s[|s| - 1], median);
    }
  }

  /** Intervals all within 30% of their median count for their mean. */
  lemma MeanOfNear(s: seq<real>, average: real)
    requires s != [] && Median(s) > 0.0 && (forall i :: 0 <= i < |s| ==> Near(s[i], Median(s)))
    requires average == AverageInterval(s)
    ensures average == Sum(s) / |s| as real
  {
    AllKept(s, Median(s));
  }

  lemma TwoKept(b: real, c: real)
    requires b > 0.0 && !Near(c, b)
    ensures KeptSum([b, b, c], b) == (b + b, 2)
  {
    NearIsKept(b, b);
    NearIsKept(c, b);
    assert [b, b, c][..2] == [b, b] && [b, b][..1] == [b] && [b][..0] == [];
    assert KeptSum([b], b) == (b, 1);
    assert KeptSum([b, b], b) == (b + b, 2);
  }

  lemma {:induction false} SortedPair(b: real, c: real) returns (s: seq<real>)
    ensures s == Sorted([b, b, c]) && |s| == 3 && multiset(s) == multiset{b, b, c} && Ascending(s)
  {
    s := Sorted([b, b, c]);
    SortedAscending([b, b, c]);
  }

  lemma {:induction false} MedianOfPair(b: real, c: real)
    ensures Median([b, b, c]) == b
  {
    var s := SortedPair(b, c);
    MiddleOfPair(s, b, c);
  }

  /** An interval further off does not count. */
  lemma {:induction false} OutlierDropped(b: real, c: real)
    requires b > 0.0 && !Near(c, b)
    ensures AverageInterval([b, b, c]) == b
  {
    MedianOfPair(b, c);
    TwoKept(b, c);
  }

  lemma BeatKeepsTaps(m: Model, e: BeatEvent)
    requires m.period > 0.0
    ensures OnBeat(m, e).taps == m.taps && OnBeat(m, e).tapCount == m.tapCount
  {
  }

  /** A tap is held with the three before it. */
  lemma {:induction false} TapsHeld(m: Model, t: nat)
    requires Sound(m) && m.period > 0.0
    ensures Tap(m, t).taps == [m.taps[1], m.taps[2], m.taps[3], t as real]
    ensures Tap(m, t).tapCount == if m.tapCount < 4 then m.tapCount + 1 else 4
  {
    if Registers(m, t) { BeatKeepsTaps(Tapped(m, t), TapBeat(m, t)); }
  }

  lemma {:induction false} SumOfEqual(s: seq<real>, d: real)
    requires forall i :: 0 <= i < |s| ==> s[i] == d
    ensures Sum(s) == d * |s| as real
  {
    if s == [] {
    } else {
      SumOfEqual(s[..|s| - 1], d);
      assert d * (|s| - 1) as real + d == d * |s| as real;
    }
  }

  lemma {:induction false} MeanOfEqual(s: seq<real>, d: real)
    requires s != [] && forall i :: 0 <= i < |s| ==> s[i] == d
    ensures Sum(s) / |s| as real == d
  {
    SumOfEqual(s, d);
    Quotient(Sum(s), |s| as real, d);
  }

  lemma {:induction false} EvenAverage(s: seq<real>, d: real)
    requires s != [] && d > 0.0 && forall i :: 0 <= i < |s| ==> s[i] == d
    ensures AverageInterval(s) == d
  {
    assert Median(s) in s;
    MeanOfNear(s, AverageInterval(s));
    MeanOfEqual(s, d);
  }

  /** Evenly spaced taps report the tempo of their spacing. */
  lemma {:induction false} EvenTaps(m: Model, t: nat, d: real)
    requires |m.taps| == 4 && m.tapCount <= 4 && d > 0.0 && Tapped(m, t).tapCount >= 2
    requires var n := Tapped(m, t);
             forall i :: 4 - n.tapCount <= i < 3 ==> n.taps[i + 1] - n.taps[i] == d
    ensures Registers(m, t) && TapBeat(m, t) == BeatEvent(t, 60000000.0 / d, 0, false)
  {
    var n := Tapped(m, t);
    var s := Intervals(n.taps, n.tapCount);
    forall i | 0 <= i < |s| ensures s[i] == d {
      assert s[i] == n.taps[4 - n.tapCount + i + 1] - n.taps[4 - n.tapCount + i];
    }
    EvenAverage(s, d);
  }

  // ---- a beat on phase ---------------------------------------------------

  /** A beat taken where the clock predicts a whole beat leaves 85% of the distance to
      the period it tells of. */
  lemma OnPhaseBeat(m: Model, e: BeatEvent) returns (target: real)
    requires Sound(m) && m.lastEvent >= 0.0 && m.period > 0.0 && Whole(m, e.t as real)
    requires !ReportsGarbage(e.bpm) && Accepts(m, e)
    ensures Tells(m, e, target) && target - OnBeat(m, e).period == 0.85 * (target - m.period)
  {
    target := TargetPeriod(m, e);
    Understood(m, e);
    var n := Note(m, e.t as real);
    OnPhaseError(m, e.t as real);
    assert PhaseError(n, e.t as real) == 0.0 && TargetPeriod(n, e) == target;
    SteeredPeriod(m.period, target, 0.0);
    BoundsAreSane(m.period);
    BoundsAreSane(target);
    OnTheBeat(m.period, target, NewPeriod(m.period, target, 0.0));
  }

  /** After a beat was taken the clock stays locked for exactly eight of its beats,
      whenever it is asked. */
  lemma LockedForEightBeats(m: Model, e: BeatEvent, t: nat)
    requires Valid(m) && InOrder(m, Beat(e)) && m.lastEvent >= 0.0 && e.t <= t
    requires !ReportsGarbage(e.bpm) && Accepts(m, e)
    ensures var m' := OnBeat(m, e);
            IsLocked(Note(m', t as real)) <==> t as real - e.t as real <= 8.0 * m'.period
  {
    OnBeatKeepsValid(m, e);
    NoteNow(m, e.t as real);
  }

  // ---- reading -----------------------------------------------------------

  /** A fresh clock runs at 120 beats a minute from beat 0 at time 0, without claiming
      to know a tempo. */
  lemma FreshClock()
    ensures INITIAL.period * 120.0 == 60000000.0 && INITIAL.running && !INITIAL.tempoKnown
    ensures INITIAL.period > 0.0 && Reading(INITIAL, 0.0) == 0.0 && INITIAL.lastEvent < 0.0
  {
    AtAnchor(INITIAL);
  }

  /** A running clock counts one beat a period from its anchor. */
  lemma OneBeatAPeriod(m: Model, t: real, beats: real)
    requires m.period > 0.0 && m.running && t == m.anchorT + beats * m.period
    ensures Reading(m, t) == m.anchorBeat + beats
  {
    Quotient(t - m.anchorT, m.period, beats);
  }

  /** Starting counts from beat 0 at that time, at the tempo there was. */
  lemma StartsAtZero(m: Model, t: nat)
    requires m.period > 0.0
    ensures Start(m, t).running && Start(m, t).period == m.period && Reading(Start(m, t), t as real) == 0.0
  {
    AtAnchor(Start(m, t));
  }

  /** A stopped clock answers at all times what it would have answered at the latest
      time it had seen. */
  lemma StopHolds(m: Model, t: real)
    requires m.period > 0.0
    ensures Stop(m).period == m.period && !Stop(m).running
    ensures Reading(Stop(m), t) == Reading(m, if m.lastKnown >= 0.0 then m.lastKnown else m.anchorT)
  {
  }
}
