/** The musical clock of beat_clock.cpp: a PLL that follows jittery beats without
    ever letting the beat number run backwards. Times are microseconds and
    tempos beats per minute, both as reals. */
module BeatModel {
  import opened Reals

  const DEFAULT_PERIOD: real := 500000.0
  const MIN_BPM: real := 40.0
  const MAX_BPM: real := 220.0
  const MICROS_PER_MINUTE: real := 60000000.0
  const ABS_MIN_PERIOD: real := MICROS_PER_MINUTE / MAX_BPM
  const ABS_MAX_PERIOD: real := MICROS_PER_MINUTE / MIN_BPM
  const BEATS_PER_BAR: nat := 4
  const PERIOD_GAIN: real := 0.15
  const PHASE_TO_PERIOD_GAIN: real := 0.10
  const PHASE_GAIN: real := 0.15
  const MAX_PERIOD_JUMP: real := 2.0
  const TAP_OUTLIER: real := 0.3
  const LOCK_TIMEOUT_BEATS: real := 8.0

  /** `bpm == 0` means the source did not report a tempo. */
  datatype BeatEvent = BeatEvent(t: nat, bpm: real, beatInBar: nat, isDownbeat: bool)

  /** `lastEvent < 0` before the first beat, `lastKnown < 0` before any time was
      seen. */
  datatype Model = Model(
    period: real,
    anchorT: real,
    anchorBeat: real,
    lastEvent: real,
    lastKnown: real,
    running: bool,
    tempoKnown: bool,
    frozenBeat: real,
    barAnchor: real,
    haveBar: bool,
    taps: seq<real>,
    tapCount: nat)

  const INITIAL: Model :=
    Model(DEFAULT_PERIOD, 0.0, 0.0, -1.0, -1.0, true, false, 0.0, 0.0, false, [0.0, 0.0, 0.0, 0.0], 0)

  function PeriodFor(bpm: real): real
    requires bpm != 0.0
  {
    MICROS_PER_MINUTE / bpm
  }

  function Clamp(x: real, lo: real, hi: real): real {
    if x < lo then lo else if x > hi then hi else x
  }

  function ContinuousBeat(m: Model, t: real): real
    requires m.period != 0.0
  {
    m.anchorBeat + (t - m.anchorT) / m.period
  }

  /** What a query at `t` answers. */
  function Reading(m: Model, t: real): real
    requires m.period != 0.0
  {
    if m.running then ContinuousBeat(m, t) else m.frozenBeat
  }

  /** Running at a known tempo, and a beat was taken within the lock timeout. */
  predicate IsLocked(m: Model) {
    m.running && m.tempoKnown && m.lastEvent >= 0.0 &&
    m.lastKnown - m.lastEvent <= LOCK_TIMEOUT_BEATS * m.period
  }

  /** The latest time the clock has seen. */
  function Now(m: Model): real {
    if m.lastKnown >= 0.0 then m.lastKnown else m.anchorT
  }

  function Note(m: Model, t: real): Model {
    if t > m.lastKnown then m.(lastKnown := t) else m
  }

  // ---- the beat event ----------------------------------------------------

  predicate ReportsGarbage(bpm: real) {
    bpm != 0.0 && (bpm < MIN_BPM || bpm > MAX_BPM)
  }

  predicate WildJump(m: Model, target: real) {
    m.tempoKnown && (target > m.period * MAX_PERIOD_JUMP || target < m.period / MAX_PERIOD_JUMP)
  }

  /** The period this event implies: reported, or measured since the last one. */
  function TargetPeriod(m: Model, e: BeatEvent): real
    requires m.period > 0.0
  {
    if e.bpm > 0.0 then PeriodFor(e.bpm)
    else
      var dt := e.t as real - m.lastEvent;
      var elapsed := Round(dt / m.period);
      dt / (if elapsed < 1 then 1.0 else elapsed as real)
  }

  predicate Accepts(m: Model, e: BeatEvent)
    requires m.period > 0.0
  {
    var target := TargetPeriod(m, e);
    ABS_MIN_PERIOD <= target <= ABS_MAX_PERIOD && !WildJump(m, target)
  }

  function PhaseError(m: Model, t: real): real
    requires m.period != 0.0
  {
    var pred := ContinuousBeat(m, t);
    pred - Round(pred) as real
  }

  function BarAfter(m: Model, e: BeatEvent, beat: real): Model {
    if e.isDownbeat then m.(barAnchor := beat, haveBar := true)
    else if 1 <= e.beatInBar <= BEATS_PER_BAR then
      m.(barAnchor := beat - (e.beatInBar - 1) as real, haveBar := true)
    else m
  }

  /** Frequency term: towards the target, and slower the further ahead. */
  function NewPeriod(period: real, target: real, phaseError: real): real {
    Clamp(period + PERIOD_GAIN * (target - period) + PHASE_TO_PERIOD_GAIN * (phaseError * period),
          ABS_MIN_PERIOD, ABS_MAX_PERIOD)
  }

  /** Position term: forward only. */
  function Nudge(phaseError: real): real {
    if phaseError < 0.0 then -PHASE_GAIN * phaseError else 0.0
  }

  /** The correction of an accepted beat. */
  function Corrected(m: Model, e: BeatEvent): Model
    requires m.period > 0.0
  {
    var t := e.t as real;
    var error := PhaseError(m, t);
    var beat := ContinuousBeat(m, t) + Nudge(error);
    BarAfter(m.(anchorBeat := beat, anchorT := t, period := NewPeriod(m.period, TargetPeriod(m, e), error),
                lastEvent := t, running := true, tempoKnown := true), e, beat)
  }

  function FirstBeat(m: Model, e: BeatEvent): Model {
    var a := m.(anchorT := e.t as real, anchorBeat := 0.0, lastEvent := e.t as real, running := true);
    var b := if e.bpm > 0.0 then a.(period := PeriodFor(e.bpm), tempoKnown := true) else a;
    BarAfter(b, e, 0.0)
  }

  function OnBeat(m: Model, e: BeatEvent): Model
    requires m.period > 0.0
  {
    if ReportsGarbage(e.bpm) then m
    else
      var n := Note(m, e.t as real);
      if n.lastEvent < 0.0 then FirstBeat(n, e)
      else if Accepts(n, e) then Corrected(n, e)
      else n
  }

  // ---- the other calls ---------------------------------------------------

  predicate AcceptsTempo(m: Model, bpm: real) {
    MIN_BPM <= bpm <= MAX_BPM && !WildJump(m, PeriodFor(bpm))
  }

  function OnTempo(m: Model, bpm: real): Model {
    if !AcceptsTempo(m, bpm) then m
    else m.(period := Clamp(m.period + PERIOD_GAIN * (PeriodFor(bpm) - m.period), ABS_MIN_PERIOD, ABS_MAX_PERIOD),
            tempoKnown := true)
  }

  function Start(m: Model, t: nat): Model {
    Note(m, t as real).(anchorBeat := 0.0, anchorT := t as real, barAnchor := 0.0, haveBar := false,
                        lastEvent := t as real, running := true)
  }

  function Stop(m: Model): Model
    requires m.period > 0.0
  {
    m.(frozenBeat := Reading(m, Now(m)), running := false)
  }

  // ---- tap tempo ---------------------------------------------------------

  function Inserted(x: real, s: seq<real>): (r: seq<real>)
    ensures multiset(r) == multiset(s) + multiset{x}
    ensures |r| == |s| + 1
  {
    if s == [] || x <= s[0] then [x] + s
    else
      assert s == [s[0]] + s[1..];
      [s[0]] + Inserted(x, s[1..])
  }

  function Sorted(s: seq<real>): (r: seq<real>)
    ensures multiset(r) == multiset(s)
    ensures |r| == |s|
  {
    if s == [] then []
    else
      assert s == s[..|s| - 1] + [s[|s| - 1]];
      Inserted(s[|s| - 1], Sorted(s[..|s| - 1]))
  }

  function Median(s: seq<real>): (r: real)
    requires s != []
    ensures r in s
  {
    var m := Sorted(s)[|s| / 2];
    assert m in multiset(Sorted(s));
    m
  }

  function Abs(x: real): real {
    if x < 0.0 then -x else x
  }

  predicate Kept(interval: real, median: real) {
    median > 0.0 ==> Abs(interval - median) / median <= TAP_OUTLIER
  }

  function KeptSum(s: seq<real>, median: real): (real, nat) {
    if s == [] then (0.0, 0)
    else
      var (sum, n) := KeptSum(s[..|s| - 1], median);
      if Kept(s[|s| - 1], median) then (sum + s[|s| - 1], n + 1) else (sum, n)
  }

  /** The average of the intervals near the median. */
  function AverageInterval(s: seq<real>): real
    requires s != []
  {
    var (sum, n) := KeptSum(s, Median(s));
    if n == 0 then Median(s) else sum / n as real
  }

  function Intervals(taps: seq<real>, count: nat): (r: seq<real>)
    requires |taps| == 4 && 1 <= count <= 4
    ensures |r| == count - 1
  {
    seq(count - 1, i requires 0 <= i < count - 1 => taps[5 - count + i] - taps[4 - count + i])
  }

  function Tapped(m: Model, t: nat): Model
    requires |m.taps| == 4
  {
    Note(m, t as real).(taps := m.taps[1..] + [t as real], tapCount := if m.tapCount < 4 then m.tapCount + 1 else m.tapCount)
  }

  /** The average interval, once two taps are there. */
  function TapAverage(m: Model, t: nat): real
    requires |m.taps| == 4 && m.tapCount <= 4 && Tapped(m, t).tapCount >= 2
  {
    AverageInterval(Intervals(Tapped(m, t).taps, Tapped(m, t).tapCount))
  }

  predicate Registers(m: Model, t: nat)
    requires |m.taps| == 4 && m.tapCount <= 4
  {
    Tapped(m, t).tapCount < 2 || TapAverage(m, t) > 0.0
  }

  /** The beat a tap registers. */
  function TapBeat(m: Model, t: nat): BeatEvent
    requires |m.taps| == 4 && m.tapCount <= 4 && Registers(m, t)
  {
    BeatEvent(t, if Tapped(m, t).tapCount < 2 then 0.0 else MICROS_PER_MINUTE / TapAverage(m, t), 0, false)
  }

  function Tap(m: Model, t: nat): Model
    requires m.period > 0.0 && |m.taps| == 4 && m.tapCount <= 4
  {
    if Registers(m, t) then OnBeat(Tapped(m, t), TapBeat(m, t)) else Tapped(m, t)
  }

  // ---- the invariant -----------------------------------------------------

  /** What holds whatever is called with whatever timestamps. */
  predicate Sound(m: Model) {
    ABS_MIN_PERIOD <= m.period <= ABS_MAX_PERIOD && |m.taps| == 4 && m.tapCount <= 4
  }

  lemma PositivePeriod(m: Model)
    requires Sound(m)
    ensures m.period > 0.0
  {
  }

  predicate Valid(m: Model) {
    Sound(m) &&
    (m.lastEvent < 0.0 ==> m.anchorT == 0.0 && m.anchorBeat == 0.0) &&
    (m.lastEvent >= 0.0 ==> m.lastKnown >= 0.0) &&
    0.0 <= m.anchorT <= Now(m) && 0.0 <= m.anchorBeat && 0.0 <= m.frozenBeat
  }

  /** A stopped clock whose model has not fallen behind the frozen beat. */
  predicate Resumable(m: Model)
    requires m.period != 0.0
  {
    !m.running ==> m.frozenBeat <= ContinuousBeat(m, Now(m))
  }

  lemma PeriodForBounds(bpm: real)
    requires MIN_BPM <= bpm <= MAX_BPM
    ensures ABS_MIN_PERIOD <= PeriodFor(bpm) <= ABS_MAX_PERIOD
  {
    var p := PeriodFor(bpm);
    assert p * bpm == MICROS_PER_MINUTE;
    assert ABS_MIN_PERIOD * MAX_BPM == MICROS_PER_MINUTE;
    assert ABS_MAX_PERIOD * MIN_BPM == MICROS_PER_MINUTE;
    if p < ABS_MIN_PERIOD {
      MulMono(bpm, MAX_BPM, ABS_MIN_PERIOD);
      MulMonoStrict(p, ABS_MIN_PERIOD, bpm);
    }
    if p > ABS_MAX_PERIOD {
      MulMono(MIN_BPM, bpm, ABS_MAX_PERIOD);
      MulMonoStrict(ABS_MAX_PERIOD, p, bpm);
    }
  }

  lemma ContinuousRises(m: Model, t1: real, t2: real)
    requires m.period > 0.0 && t1 <= t2
    ensures ContinuousBeat(m, t1) <= ContinuousBeat(m, t2)
  {
    DivMono(t1 - m.anchorT, t2 - m.anchorT, m.period);
  }

  lemma AtAnchor(m: Model)
    requires m.period > 0.0
    ensures ContinuousBeat(m, m.anchorT) == m.anchorBeat
  {
    var q := (m.anchorT - m.anchorT) / m.period;
    assert q * m.period == 0.0;
  }

  /** An accepted later beat never moves the phase back, and moves it forward by
      at most 0.075 beat; the part of the error it removes is 15%. */
  lemma CorrectionIsForward(m: Model, e: BeatEvent)
    requires m.period > 0.0
    ensures var t := e.t as real; var c := Corrected(m, e);
            ABS_MIN_PERIOD <= c.period <= ABS_MAX_PERIOD &&
            ContinuousBeat(c, t) == c.anchorBeat &&
            0.0 <= c.anchorBeat - ContinuousBeat(m, t) <= 0.075 &&
            (PhaseError(m, t) < 0.0 ==>
              c.anchorBeat - Round(ContinuousBeat(m, t)) as real == 0.85 * PhaseError(m, t)) &&
            (PhaseError(m, t) >= 0.0 ==> c.anchorBeat == ContinuousBeat(m, t))
  {
    var c := Corrected(m, e);
    AtAnchor(c);
  }

  /** The model never goes below its anchor at later times. */
  lemma PastAnchor(m: Model, t: real)
    requires m.period > 0.0 && m.anchorT <= t
    ensures m.anchorBeat <= ContinuousBeat(m, t)
    ensures m.anchorT < t ==> m.anchorBeat < ContinuousBeat(m, t)
  {
    AtAnchor(m);
    QuotientSign(t - m.anchorT, m.period);
    ContinuousRises(m, m.anchorT, t);
  }

  lemma QuotientSign(d: real, p: real)
    requires 0.0 < p
    ensures d / p > 0.0 <==> d > 0.0
  {
    var q := d / p;
    assert q * p == d;
    if d <= 0.0 { DivMono(d, 0.0, p); }
    if q <= 0.0 { MulMono(q, 0.0, p); }
  }

  lemma NoteNow(m: Model, t: real)
    requires Valid(m) && Now(m) <= t
    ensures Valid(Note(m, t)) && Now(Note(m, t)) == t
  {
  }

  lemma OnBeatKeepsValid(m: Model, e: BeatEvent)
    requires Valid(m) && Now(m) <= e.t as real
    ensures Valid(OnBeat(m, e))
  {
    if !ReportsGarbage(e.bpm) {
      var n := Note(m, e.t as real);
      NoteNow(m, e.t as real);
      if e.bpm > 0.0 { PeriodForBounds(e.bpm); }
      if n.lastEvent >= 0.0 && Accepts(n, e) {
        CorrectionIsForward(n, e);
        PastAnchor(n, e.t as real);
      }
    }
  }

  lemma TappedValid(m: Model, t: nat)
    requires Valid(m) && Now(m) <= t as real
    ensures Valid(Tapped(m, t)) && Now(Tapped(m, t)) == t as real
  {
    NoteNow(m, t as real);
  }

  lemma TapKeepsValid(m: Model, t: nat)
    requires Valid(m) && Now(m) <= t as real
    ensures Valid(Tap(m, t))
  {
    TappedValid(m, t);
    if Registers(m, t) { OnBeatKeepsValid(Tapped(m, t), TapBeat(m, t)); }
  }

  lemma StopKeepsValid(m: Model)
    requires Valid(m)
    ensures Valid(Stop(m))
  {
    PastAnchor(m, Now(m));
  }

  lemma OnTempoPeriod(m: Model, bpm: real)
    requires Valid(m) && AcceptsTempo(m, bpm)
    ensures OnTempo(m, bpm).period == m.period + PERIOD_GAIN * (PeriodFor(bpm) - m.period)
    ensures ABS_MIN_PERIOD <= OnTempo(m, bpm).period <= ABS_MAX_PERIOD
  {
    PeriodForBounds(bpm);
  }

  lemma OnBeatSound(m: Model, e: BeatEvent)
    requires Sound(m)
    ensures Sound(OnBeat(m, e))
  {
    if !ReportsGarbage(e.bpm) && e.bpm > 0.0 { PeriodForBounds(e.bpm); }
  }

  lemma TapSound(m: Model, t: nat)
    requires Sound(m)
    ensures Sound(Tap(m, t))
  {
    if Registers(m, t) { OnBeatSound(Tapped(m, t), TapBeat(m, t)); }
  }

  // ---- runs --------------------------------------------------------------

  datatype Op =
    | Beat(e: BeatEvent)
    | TapAt(t: nat)
    | StopNow
    | Query(t: nat)
    | Tempo(bpm: real)
    | StartAt(t: nat)

  function Next(m: Model, op: Op): Model
    requires Sound(m)
  {
    match op
    case Tempo(bpm) => OnTempo(m, bpm)
    case StartAt(t) => Start(m, t)
    case Beat(e) => OnBeat(m, e)
    case TapAt(t) => Tap(m, t)
    case StopNow => Stop(m)
    case Query(t) => Note(m, t as real)
  }

  lemma NextSound(m: Model, op: Op)
    requires Sound(m)
    ensures Sound(Next(m, op))
  {
    match op {
      case Beat(e) => OnBeatSound(m, e);
      case TapAt(t) => TapSound(m, t);
      case _ =>
    }
  }

  /** In every run at all, in order or not, the period stays within 40..220 BPM. */
  function Run(m: Model, ops: seq<Op>): (n: Model)
    requires Sound(m)
    ensures Sound(n)
  {
    if ops == [] then m
    else
      var before := Run(m, ops[..|ops| - 1]);
      NextSound(before, ops[|ops| - 1]);
      Next(before, ops[|ops| - 1])
  }

  /** A call stamped no earlier than any time the clock has seen. */
  predicate InOrder(m: Model, op: Op) {
    match op
    case Beat(e) => Now(m) <= e.t as real
    case TapAt(t) => Now(m) <= t as real
    case Query(t) => Now(m) <= t as real
    case StartAt(t) => Now(m) <= t as real
    case Tempo(_) => true
    case StopNow => true
  }

  lemma NextKeepsValid(m: Model, op: Op)
    requires Valid(m) && InOrder(m, op)
    ensures Valid(Next(m, op))
  {
    match op {
      case Beat(e) => OnBeatKeepsValid(m, e);
      case TapAt(t) => TapKeepsValid(m, t);
      case StopNow => StopKeepsValid(m);
      case Query(t) => NoteNow(m, t as real);
      case StartAt(t) =>
      case Tempo(bpm) =>
    }
  }

  // ---- where a call takes the beat number back ---------------------------

  /** Asked at the latest time `n` has seen, the clock answers a smaller beat
      number as `n` than as `m`. */
  predicate Drops(m: Model, n: Model)
    requires m.period > 0.0 && n.period > 0.0
  {
    Reading(n, Now(n)) < Reading(m, Now(n))
  }

  /** The call takes the beat number back. */
  predicate StepsBack(m: Model, op: Op)
    requires Sound(m)
  {
    NextSound(m, op);
    PositivePeriod(m);
    PositivePeriod(Next(m, op));
    Drops(m, Next(m, op))
  }

  /** A first beat counts as beat 0, wherever the clock was. */
  predicate FirstBeatSlips(m: Model, e: BeatEvent) {
    !ReportsGarbage(e.bpm) && m.lastEvent < 0.0 &&
    ((m.running && e.t > 0) || (!m.running && m.frozenBeat > 0.0))
  }

  /** A later beat resumes a stopped clock from a model that fell behind. */
  predicate ResumeSlips(m: Model, e: BeatEvent)
    requires m.period > 0.0
  {
    !ReportsGarbage(e.bpm) && m.lastEvent >= 0.0 && Accepts(m, e) && !m.running &&
    ContinuousBeat(m, e.t as real) + Nudge(PhaseError(m, e.t as real)) < m.frozenBeat
  }

  /** `start` counts from 0 again. */
  predicate StartSlips(m: Model, t: nat) {
    (m.running && (m.anchorBeat > 0.0 || m.anchorT < t as real)) || (!m.running && m.frozenBeat > 0.0)
  }

  /** An accepted slower tempo stretches the time since the anchor. */
  predicate TempoStretches(m: Model, bpm: real) {
    AcceptsTempo(m, bpm) && PeriodFor(bpm) > m.period && m.anchorT < Now(m)
  }

  predicate BeatSlips(m: Model, e: BeatEvent)
    requires m.period > 0.0
  {
    FirstBeatSlips(m, e) || ResumeSlips(m, e)
  }

  predicate Slips(m: Model, op: Op)
    requires Sound(m)
  {
    match op
    case Beat(e) => BeatSlips(m, e)
    case TapAt(t) => Registers(m, t) && BeatSlips(Tapped(m, t), TapBeat(m, t))
    case StartAt(t) => StartSlips(m, t)
    case Tempo(bpm) => m.running && TempoStretches(m, bpm)
    case StopNow => false
    case Query(_) => false
  }

  /** `onTempo` changes the period without moving the anchor: on a running clock
      it steps back exactly when it accepts a tempo slower than the current one
      and the anchor is in the past. A stopped clock keeps its frozen beat. */
  lemma OnTempoStepsBack(m: Model, bpm: real)
    requires Valid(m)
    ensures StepsBack(m, Tempo(bpm)) <==> m.running && TempoStretches(m, bpm)
  {
    if AcceptsTempo(m, bpm) {
      OnTempoPeriod(m, bpm);
      QuotientsOrder(Now(m) - m.anchorT, m.period, OnTempo(m, bpm).period);
    }
  }

  lemma QuotientsOrder(d: real, p: real, q: real)
    requires 0.0 <= d && 0.0 < p && 0.0 < q
    ensures d / q < d / p <==> p < q && 0.0 < d
  {
    QuotientOrder(d, p, q);
    QuotientOrder(d, q, p);
  }

  lemma QuotientOrder(d: real, p: real, q: real)
    requires 0.0 <= d && 0.0 < p && 0.0 < q
    ensures p < q && 0.0 < d ==> d / q < d / p
    ensures p <= q || d == 0.0 ==> d / q <= d / p
  {
    var x, y := d / p, d / q;
    assert x * p == d && y * q == d;
    DivMono(0.0, d, p);
    DivMono(0.0, d, q);
    if p < q && 0.0 < d {
      if y <= 0.0 { MulMono(y, 0.0, q); }
      MulMonoStrict(p, q, y);
      if x <= y { MulMono(x, y, p); }
    }
    if p <= q {
      MulMono(p, q, y);
      if x < y { MulMonoStrict(x, y, p); }
    }
  }

  /** The beat position that the forward correction lifts to `beat`. */
  function Uncorrected(beat: real): real {
    var k := beat.Floor as real;
    if beat - k <= 0.5 then beat
    else if beat - k <= 0.575 then k + 0.5
    else (beat - 0.15 * (k + 1.0)) / 0.85
  }

  /** Where the correction lifts position `p`, between the whole beats `i` and `i + 1`. */
  function Lifted(p: real, i: int): real {
    if p - i as real < 0.5 then p else 0.85 * p + 0.15 * (i as real + 1.0)
  }

  lemma NudgeLifts(p: real, i: int)
    requires p >= 0.0 && i == p.Floor
    ensures p + Nudge(p - Round(p) as real) == Lifted(p, i)
  {
    assert PHASE_GAIN == 0.15;
    if p - i as real < 0.5 {
      assert Round(p) == i;
    } else {
      assert Round(p) == i + 1;
    }
  }

  lemma LiftedBelow(p: real, i: int, beat: real, k: int)
    requires i as real <= p < i as real + 1.0 && k == beat.Floor
    ensures Lifted(p, i) < beat <==> p < Uncorrected(beat)
  {
    var u, x := Uncorrected(beat), beat - k as real;
    assert k as real <= beat < k as real + 1.0;
    assert x > 0.575 ==> 0.85 * u == beat - 0.15 * (k as real + 1.0);
    assert k as real <= u < k as real + 1.0;
    if i < k {
      assert i as real + 1.0 <= k as real;
    } else if i > k {
      assert k as real + 1.0 <= i as real;
    }
  }

  lemma CorrectedBelow(p: real, beat: real)
    requires p >= 0.0
    ensures p + Nudge(p - Round(p) as real) < beat <==> p < Uncorrected(beat)
  {
    NudgeLifts(p, p.Floor);
    LiftedBelow(p, p.Floor, beat, beat.Floor);
  }

  /** Until when a beat resumes a stopped clock below its frozen beat. */
  function ResumeTime(m: Model): real {
    m.anchorT + (Uncorrected(m.frozenBeat) - m.anchorBeat) * m.period
  }

  lemma ReachedBefore(m: Model, t: real, beat: real)
    requires m.period > 0.0
    ensures ContinuousBeat(m, t) < beat <==> t < m.anchorT + (beat - m.anchorBeat) * m.period
  {
    var q := (t - m.anchorT) / m.period;
    assert q * m.period == t - m.anchorT;
    if q < beat - m.anchorBeat { MulMonoStrict(q, beat - m.anchorBeat, m.period); }
    if q >= beat - m.anchorBeat { MulMono(beat - m.anchorBeat, q, m.period); }
  }

  lemma SlipsBefore(m: Model, t: real)
    requires m.period > 0.0 && ContinuousBeat(m, t) >= 0.0
    ensures ContinuousBeat(m, t) + Nudge(PhaseError(m, t)) < m.frozenBeat <==> t < ResumeTime(m)
  {
    CorrectedBelow(ContinuousBeat(m, t), m.frozenBeat);
    ReachedBefore(m, t, Uncorrected(m.frozenBeat));
  }

  /** In event time: an accepted beat slips on resuming exactly when it comes before
      `ResumeTime`. */
  lemma ResumeSlipsBefore(m: Model, e: BeatEvent)
    requires Valid(m) && InOrder(m, Beat(e))
    ensures ResumeSlips(m, e) <==>
              !ReportsGarbage(e.bpm) && m.lastEvent >= 0.0 && Accepts(m, e) && !m.running && e.t as real < ResumeTime(m)
  {
    PastAnchor(m, e.t as real);
    SlipsBefore(m, e.t as real);
  }

  /** `start` steps back exactly when a running clock has left beat 0 or a
      stopped one was frozen beyond it. */
  lemma StartStepsBack(m: Model, t: nat)
    requires Valid(m) && InOrder(m, StartAt(t))
    ensures StepsBack(m, StartAt(t)) <==> StartSlips(m, t)
  {
    AtAnchor(Start(m, t));
    PastAnchor(m, t as real);
    if m.anchorT == t as real { AtAnchor(m); }
  }

  /** The accepted first beat at `t`. */
  lemma FirstBeatSteps(m: Model, e: BeatEvent)
    requires Valid(m) && Now(m) <= e.t as real && m.lastEvent < 0.0 && !ReportsGarbage(e.bpm)
    ensures Valid(OnBeat(m, e)) && Now(OnBeat(m, e)) == e.t as real
    ensures Reading(OnBeat(m, e), e.t as real) == 0.0
    ensures Reading(m, e.t as real) > 0.0 <==> FirstBeatSlips(m, e)
  {
    OnBeatKeepsValid(m, e);
    AtAnchor(OnBeat(m, e));
    QuotientSign(e.t as real, m.period);
  }

  lemma CorrectedSteps(m: Model, e: BeatEvent)
    requires Valid(m) && Now(m) == e.t as real && m.lastEvent >= 0.0
    requires !ReportsGarbage(e.bpm) && Accepts(m, e)
    ensures Corrected(m, e).period > 0.0
    ensures Reading(Corrected(m, e), e.t as real) < Reading(m, e.t as real) <==> ResumeSlips(m, e)
  {
    CorrectionIsForward(m, e);
  }

  lemma NotedBeat(m: Model, e: BeatEvent, t: real)
    requires Valid(m)
    ensures Accepts(Note(m, t), e) <==> Accepts(m, e)
    ensures ResumeSlips(Note(m, t), e) <==> ResumeSlips(m, e)
    ensures Reading(Note(m, t), e.t as real) == Reading(m, e.t as real)
  {
  }

  /** A later accepted beat moves a running clock forward only. */
  lemma LaterBeatSteps(m: Model, e: BeatEvent)
    requires Valid(m) && Now(m) <= e.t as real && m.lastEvent >= 0.0 && !ReportsGarbage(e.bpm) && Accepts(m, e)
    ensures Valid(OnBeat(m, e)) && Now(OnBeat(m, e)) == e.t as real
    ensures Reading(OnBeat(m, e), e.t as real) < Reading(m, e.t as real) <==> ResumeSlips(m, e)
  {
    OnBeatKeepsValid(m, e);
    NoteNow(m, e.t as real);
    NotedBeat(m, e, e.t as real);
    CorrectedSteps(Note(m, e.t as real), e);
  }

  /** Among beats, only a first one that finds the clock beyond beat 0, or one
      that resumes a stopped clock whose model fell behind, steps back. */
  lemma BeatStepsBack(m: Model, e: BeatEvent)
    requires Valid(m) && InOrder(m, Beat(e))
    ensures OnBeat(m, e).period > 0.0 && (Drops(m, OnBeat(m, e)) <==> BeatSlips(m, e))
  {
    OnBeatSound(m, e);
    if ReportsGarbage(e.bpm) {
    } else if m.lastEvent < 0.0 {
      FirstBeatSteps(m, e);
    } else if Accepts(m, e) {
      LaterBeatSteps(m, e);
    }
  }

  lemma SameDrop(m: Model, tapped: Model, n: Model)
    requires m.period > 0.0 && n.period > 0.0
    requires tapped == m.(lastKnown := tapped.lastKnown, taps := tapped.taps, tapCount := tapped.tapCount)
    ensures Drops(m, n) <==> Drops(tapped, n)
  {
  }

  lemma TapStepsBack(m: Model, t: nat, n: Model)
    requires Valid(m) && InOrder(m, TapAt(t)) && n == Tap(m, t)
    ensures n.period > 0.0 && (Drops(m, n) <==> Slips(m, TapAt(t)))
  {
    var tapped := Tapped(m, t);
    TappedValid(m, t);
    if Registers(m, t) { BeatStepsBack(tapped, TapBeat(m, t)); }
    SameDrop(m, tapped, n);
  }

  /** For every call in every reachable state: whether it takes the beat number
      back can be told from the state before it. */
  lemma StepsBackExactly(m: Model, op: Op)
    requires Valid(m) && InOrder(m, op)
    ensures StepsBack(m, op) <==> Slips(m, op)
  {
    match op {
      case Beat(e) => BeatStepsBack(m, e);
      case TapAt(t) => TapStepsBack(m, t, Tap(m, t));
      case StartAt(t) => StartStepsBack(m, t);
      case Tempo(bpm) => OnTempoStepsBack(m, bpm);
      case StopNow =>
      case Query(t) =>
    }
  }

  // ---- beat numbers over runs --------------------------------------------

  /** One call of a run, with the clock before and after it. */
  datatype Call = Call(before: Model, op: Op, after: Model)

  predicate IsCall(c: Call) {
    Valid(c.before) && InOrder(c.before, c.op) && c.after == Next(c.before, c.op)
  }

  predicate IsRun(calls: seq<Call>) {
    (forall i :: 0 <= i < |calls| ==> IsCall(calls[i])) &&
    (forall i :: 0 < i < |calls| ==> calls[i].before == calls[i - 1].after)
  }

  /** The beat number right before and right after a call, at the latest time
      the clock has then seen; the answer of a query is both. */
  function Around(c: Call): (real, real)
    requires c.before.period > 0.0 && c.after.period > 0.0
  {
    (Reading(c.before, Now(c.after)), Reading(c.after, Now(c.after)))
  }

  lemma CallsKeepPeriod(calls: seq<Call>)
    requires forall i :: 0 <= i < |calls| ==> IsCall(calls[i])
    ensures forall i :: 0 <= i < |calls| ==> calls[i].before.period > 0.0 && calls[i].after.period > 0.0
  {
    forall i | 0 <= i < |calls| ensures calls[i].before.period > 0.0 && calls[i].after.period > 0.0 {
      CallTakesTime(calls[i]);
    }
  }

  function AroundAll(calls: seq<Call>): (pairs: seq<(real, real)>)
    requires forall i :: 0 <= i < |calls| ==> IsCall(calls[i])
    ensures |pairs| == |calls|
  {
    CallsKeepPeriod(calls);
    seq(|calls|, i requires 0 <= i < |calls| => Around(calls[i]))
  }

  function Flat(pairs: seq<(real, real)>): seq<real> {
    if pairs == [] then [] else Flat(pairs[..|pairs| - 1]) + [pairs[|pairs| - 1].0, pairs[|pairs| - 1].1]
  }

  /** The beat numbers of a run in order of time. */
  function Trace(calls: seq<Call>): seq<real>
    requires IsRun(calls)
  {
    Flat(AroundAll(calls))
  }

  predicate Nondecreasing(s: seq<real>) {
    forall i, j :: 0 <= i < j < |s| ==> s[i] <= s[j]
  }

  lemma BeatNow(m: Model, e: BeatEvent)
    requires Valid(m) && Now(m) <= e.t as real
    ensures Now(m) <= Now(OnBeat(m, e))
  {
    NoteNow(m, e.t as real);
  }

  lemma TapNow(m: Model, t: nat)
    requires Valid(m) && Now(m) <= t as real
    ensures Now(m) <= Now(Tap(m, t))
  {
    TappedValid(m, t);
    if Registers(m, t) { BeatNow(Tapped(m, t), TapBeat(m, t)); }
  }

  lemma TimePasses(m: Model, op: Op)
    requires Valid(m) && InOrder(m, op)
    ensures Now(m) <= Now(Next(m, op))
  {
    match op {
      case Beat(e) => BeatNow(m, e);
      case TapAt(t) => TapNow(m, t);
      case _ =>
    }
  }

  lemma AppendPair(s: seq<real>, a: real, b: real)
    requires s != [] ==> s[|s| - 1] <= a
    ensures Nondecreasing(s + [a, b]) <==> Nondecreasing(s) && a <= b
  {
    var all := s + [a, b];
    assert all[..|s|] == s && all[|s|] == a && all[|s| + 1] == b;
    if Nondecreasing(all) {
      forall i, j | 0 <= i < j < |s| ensures s[i] <= s[j] { assert all[i] <= all[j]; }
    }
  }

  predicate Chained(pairs: seq<(real, real)>) {
    forall i :: 0 < i < |pairs| ==> pairs[i - 1].1 <= pairs[i].0
  }

  predicate RiseWithin(pairs: seq<(real, real)>) {
    forall i :: 0 <= i < |pairs| ==> pairs[i].0 <= pairs[i].1
  }

  lemma RiseWithinPush(front: seq<(real, real)>, last: (real, real))
    ensures RiseWithin(front + [last]) <==> RiseWithin(front) && last.0 <= last.1
  {
    var all := front + [last];
    assert all[|front|] == last && forall i :: 0 <= i < |front| ==> all[i] == front[i];
  }

  lemma FlatEnds(pairs: seq<(real, real)>)
    requires pairs != []
    ensures Flat(pairs) != [] && Flat(pairs)[|Flat(pairs)| - 1] == pairs[|pairs| - 1].1
  {
  }

  /** Where the pairs follow on each other, only within a pair can they fall. */
  lemma {:induction false} FlatNondecreasing(pairs: seq<(real, real)>)
    requires Chained(pairs)
    ensures Nondecreasing(Flat(pairs)) <==> RiseWithin(pairs)
  {
    if pairs == [] {
    } else {
      var front, last := pairs[..|pairs| - 1], pairs[|pairs| - 1];
      FlatNondecreasing(front);
      if front != [] { FlatEnds(front); }
      AppendPair(Flat(front), last.0, last.1);
      assert pairs == front + [last];
      RiseWithinPush(front, last);
    }
  }

  /** Waiting never takes the beat number back. */
  lemma Waiting(m: Model, t: real)
    requires m.period > 0.0 && Now(m) <= t
    ensures Reading(m, Now(m)) <= Reading(m, t)
  {
    ContinuousRises(m, Now(m), t);
  }

  lemma CallTakesTime(c: Call)
    requires IsCall(c)
    ensures c.before.period > 0.0 && c.after.period > 0.0 && Now(c.before) <= Now(c.after)
  {
    NextSound(c.before, c.op);
    TimePasses(c.before, c.op);
  }

  lemma BetweenCalls(c: Call, d: Call)
    requires IsCall(c) && IsCall(d) && d.before == c.after
    ensures c.before.period > 0.0 && c.after.period > 0.0 && d.after.period > 0.0
    ensures Around(c).1 <= Around(d).0
  {
    CallTakesTime(c);
    CallTakesTime(d);
    Waiting(d.before, Now(d.after));
  }

  lemma AroundExact(c: Call)
    requires IsCall(c)
    ensures c.before.period > 0.0 && c.after.period > 0.0
    ensures Around(c).0 <= Around(c).1 <==> !Slips(c.before, c.op)
  {
    CallTakesTime(c);
    StepsBackExactly(c.before, c.op);
  }

  predicate NeverSlips(calls: seq<Call>)
    requires IsRun(calls)
  {
    forall i :: 0 <= i < |calls| ==> !Slips(calls[i].before, calls[i].op)
  }

  /** Over every run in order the beat number is monotone if and only if no call
      of the run slips. */
  lemma MonotoneIff(calls: seq<Call>)
    requires IsRun(calls)
    ensures Nondecreasing(Trace(calls)) <==> NeverSlips(calls)
  {
    var pairs := AroundAll(calls);
    forall i | 0 <= i < |calls| ensures pairs[i].0 <= pairs[i].1 <==> !Slips(calls[i].before, calls[i].op) {
      AroundExact(calls[i]);
    }
    forall i | 0 < i < |calls| ensures pairs[i - 1].1 <= pairs[i].0 {
      BetweenCalls(calls[i - 1], calls[i]);
    }
    FlatNondecreasing(pairs);
  }

  /** A call that moves the model off its course. */
  predicate Rebases(m: Model, op: Op)
    requires Sound(m)
  {
    match op
    case Beat(e) => FirstBeatSlips(m, e)
    case TapAt(t) => Registers(m, t) && FirstBeatSlips(Tapped(m, t), TapBeat(m, t))
    case StartAt(t) => StartSlips(m, t)
    case Tempo(bpm) => TempoStretches(m, bpm)
    case StopNow => false
    case Query(_) => false
  }

  predicate NeverRebases(calls: seq<Call>)
    requires IsRun(calls)
  {
    forall i :: 0 <= i < |calls| ==> !Rebases(calls[i].before, calls[i].op)
  }

  lemma BeatResumes(m: Model, e: BeatEvent)
    requires Valid(m) && Resumable(m) && InOrder(m, Beat(e))
    ensures OnBeat(m, e).period > 0.0 && Resumable(OnBeat(m, e)) && !ResumeSlips(m, e)
  {
    OnBeatKeepsValid(m, e);
    NoteNow(m, e.t as real);
    ContinuousRises(m, Now(m), e.t as real);
  }

  lemma TappedResumes(m: Model, t: nat)
    requires Valid(m) && Resumable(m) && Now(m) <= t as real
    ensures Resumable(Tapped(m, t))
  {
    TappedValid(m, t);
    ContinuousRises(m, Now(m), t as real);
  }

  lemma TapResumes(m: Model, t: nat, n: Model)
    requires Valid(m) && Resumable(m) && InOrder(m, TapAt(t)) && n == Tap(m, t)
    ensures n.period > 0.0 && Resumable(n)
    ensures Registers(m, t) ==> !ResumeSlips(Tapped(m, t), TapBeat(m, t))
  {
    TappedValid(m, t);
    TappedResumes(m, t);
    if Registers(m, t) { BeatResumes(Tapped(m, t), TapBeat(m, t)); }
  }

  lemma TempoResumes(m: Model, bpm: real)
    requires Valid(m) && Resumable(m) && !TempoStretches(m, bpm)
    ensures OnTempo(m, bpm).period > 0.0 && Resumable(OnTempo(m, bpm))
  {
    if AcceptsTempo(m, bpm) {
      OnTempoPeriod(m, bpm);
      QuotientsOrder(Now(m) - m.anchorT, m.period, OnTempo(m, bpm).period);
    }
  }

  /** The calls that are not beats. */
  lemma OtherResumes(m: Model, op: Op)
    requires Valid(m) && Resumable(m) && InOrder(m, op) && !Rebases(m, op) && !op.Beat? && !op.TapAt?
    ensures Next(m, op).period > 0.0 && Resumable(Next(m, op)) && !Slips(m, op)
  {
    match op {
      case Tempo(bpm) => TempoResumes(m, bpm);
      case StartAt(t) =>
      case StopNow =>
      case Query(t) => ContinuousRises(m, Now(m), t as real);
    }
  }

  lemma NextResumable(m: Model, op: Op)
    requires Valid(m) && Resumable(m) && InOrder(m, op) && !Rebases(m, op)
    ensures Next(m, op).period > 0.0 && Resumable(Next(m, op)) && !Slips(m, op)
  {
    match op {
      case Beat(e) => BeatResumes(m, e);
      case TapAt(t) => TapResumes(m, t, Tap(m, t));
      case _ => OtherResumes(m, op);
    }
  }

  lemma {:induction false} RunResumable(calls: seq<Call>, i: nat)
    requires IsRun(calls) && NeverRebases(calls) && i < |calls| && Resumable(calls[0].before)
    ensures Resumable(calls[i].before) && !Slips(calls[i].before, calls[i].op)
  {
    if i == 0 {
    } else {
      RunResumable(calls, i - 1);
      NextResumable(calls[i - 1].before, calls[i - 1].op);
    }
    NextResumable(calls[i].before, calls[i].op);
  }

  /** Beat numbers never decrease, in every run with nondecreasing timestamps from
      a fresh clock on, unless one of its calls re-bases the model. */
  lemma ReadingsNeverDecrease(calls: seq<Call>)
    requires IsRun(calls) && NeverRebases(calls)
    requires calls != [] ==> Resumable(calls[0].before)
    ensures Nondecreasing(Trace(calls))
  {
    forall i | 0 <= i < |calls| ensures !Slips(calls[i].before, calls[i].op) {
      RunResumable(calls, i);
    }
    MonotoneIff(calls);
  }

  /** A clock that has had its first beat. */
  predicate Started(m: Model) {
    Valid(m) && Resumable(m) && m.lastEvent >= 0.0
  }

  lemma FirstBeatStarts(m: Model, e: BeatEvent)
    requires Valid(m) && InOrder(m, Beat(e)) && m.lastEvent < 0.0 && !ReportsGarbage(e.bpm)
    ensures Started(OnBeat(m, e)) && Reading(OnBeat(m, e), e.t as real) == 0.0
  {
    FirstBeatSteps(m, e);
  }

  lemma StaysStarted(m: Model, op: Op)
    requires Started(m) && InOrder(m, op) && !op.Tempo? && !op.StartAt?
    ensures Started(Next(m, op)) && !Rebases(m, op)
  {
    NextKeepsValid(m, op);
    NextResumable(m, op);
  }

  /** From the first accepted beat on no beat, tap, stop or query re-bases the
      model, so beat numbers never decrease over any run of those. */
  lemma BeatsNeverDecrease(calls: seq<Call>)
    requires IsRun(calls) && (calls != [] ==> Started(calls[0].before))
    requires forall i :: 0 <= i < |calls| ==> !calls[i].op.Tempo? && !calls[i].op.StartAt?
    ensures Nondecreasing(Trace(calls))
  {
    var n := 0;
    while n < |calls|
      invariant n <= |calls|
      invariant n < |calls| ==> Started(calls[n].before)
      invariant forall i :: 0 <= i < n ==> !Rebases(calls[i].before, calls[i].op)
    {
      StaysStarted(calls[n].before, calls[n].op);
      n := n + 1;
    }
    ReadingsNeverDecrease(calls);
  }

  // ---- instances ---------------------------------------------------------

  /** A fresh clock read at one second says 2; its first beat there takes it back
      to 0. */
  lemma FirstBeatExample()
    ensures Reading(INITIAL, 1000000.0) == 2.0
    ensures Reading(OnBeat(INITIAL, BeatEvent(1000000, 0.0, 0, false)), 1000000.0) == 0.0
  {
    AtAnchor(OnBeat(INITIAL, BeatEvent(1000000, 0.0, 0, false)));
  }

  /** A fresh clock queried at one second said 2; started there it says 0. */
  lemma StartExample()
    ensures Reading(Note(INITIAL, 1000000.0), 1000000.0) == 2.0
    ensures Reading(Start(Note(INITIAL, 1000000.0), 1000000), 1000000.0) == 0.0
  {
    AtAnchor(Start(Note(INITIAL, 1000000.0), 1000000));
  }

  /** A fresh clock queried at one second said 2; told a tempo of 100 there it
      says less. */
  lemma OnTempoExample()
    ensures Reading(Note(INITIAL, 1000000.0), 1000000.0) == 2.0
    ensures Reading(OnTempo(Note(INITIAL, 1000000.0), 100.0), 1000000.0) == 1000000.0 / 515000.0 < 2.0
  {
    assert PeriodFor(100.0) == 600000.0;
  }

  /** A clock started at zero, frozen at beat 2.6 and then told a tempo of 40. */
  function SlowerWhileStopped(): (m: Model)
    ensures m.period == 650000.0 && m.anchorT == 0.0 && m.anchorBeat == 0.0 && m.lastEvent == 0.0
    ensures m.lastKnown == 1300000.0 && !m.running && m.frozenBeat == 2.6
  {
    INITIAL.(period := 650000.0, lastEvent := 0.0, lastKnown := 1300000.0, running := false,
             tempoKnown := true, frozenBeat := 2.6)
  }

  lemma FrozenThenSlower()
    ensures var started := OnBeat(INITIAL, BeatEvent(0, 0.0, 0, false));
            OnTempo(Stop(Note(started, 1300000.0)), 40.0) == SlowerWhileStopped()
  {
  }

  lemma NextBeatFits(m: Model)
    requires m == SlowerWhileStopped()
    ensures ContinuousBeat(m, 1300000.0) == 2.0 && PhaseError(m, 1300000.0) == 0.0
    ensures Accepts(m, BeatEvent(1300000, 0.0, 0, false))
  {
    assert TargetPeriod(m, BeatEvent(1300000, 0.0, 0, false)) == 650000.0;
  }

  /** A stopped clock says 2.6, and still does when told a tempo of 40; the next
      beat resumes it at 2. */
  lemma ResumeExample()
    ensures var started := OnBeat(INITIAL, BeatEvent(0, 0.0, 0, false));
            var slower := OnTempo(Stop(Note(started, 1300000.0)), 40.0);
            slower.period > 0.0 && Reading(slower, 1300000.0) == 2.6 &&
            Reading(OnBeat(slower, BeatEvent(1300000, 0.0, 0, false)), 1300000.0) == 2.0
  {
    FrozenThenSlower();
    Resumed(SlowerWhileStopped(), BeatEvent(1300000, 0.0, 0, false));
  }

  lemma Resumed(m: Model, e: BeatEvent)
    requires m == SlowerWhileStopped() && e == BeatEvent(1300000, 0.0, 0, false)
    ensures Reading(m, 1300000.0) == 2.6 && Reading(OnBeat(m, e), 1300000.0) == 2.0
  {
    NextBeatFits(m);
    CorrectionIsForward(m, e);
  }

  // ---- taps --------------------------------------------------------------

  lemma KeptBounds(x: real, median: real)
    requires median > 0.0 && Kept(x, median)
    ensures 0.7 * median <= x <= 1.3 * median
  {
    var q := Abs(x - median) / median;
    assert q * median == Abs(x - median);
    MulMono(q, TAP_OUTLIER, median);
  }

  /** The sum of `n` intervals within 30% of the median. */
  predicate SumNear(sum: real, n: nat, median: real) {
    n as real * (0.7 * median) <= sum <= n as real * (1.3 * median)
  }

  lemma OneMoreNear(n: nat, sum: real, x: real, median: real)
    requires SumNear(sum, n, median) && 0.7 * median <= x <= 1.3 * median
    ensures SumNear(sum + x, n + 1, median)
  {
    assert (n + 1) as real == n as real + 1.0;
  }

  lemma NoneNear(median: real)
    ensures SumNear(0.0, 0, median)
  {
  }

  lemma {:induction false} KeptNear(s: seq<real>, median: real)
    requires median > 0.0
    ensures SumNear(KeptSum(s, median).0, KeptSum(s, median).1, median)
  {
    if s == [] {
      NoneNear(median);
    } else {
      var front, x := s[..|s| - 1], s[|s| - 1];
      KeptNear(front, median);
      if Kept(x, median) {
        KeptBounds(x, median);
        OneMoreNear(KeptSum(front, median).1, KeptSum(front, median).0, x, median);
      }
    }
  }

  lemma {:induction false} MedianKept(s: seq<real>, median: real)
    requires median > 0.0 && median in s
    ensures KeptSum(s, median).1 > 0
  {
    var front, x := s[..|s| - 1], s[|s| - 1];
    if x == median {
      DivMono(Abs(x - median), 0.0, median);
    } else {
      assert median in front;
      MedianKept(front, median);
    }
  }

  /** The tapped tempo is the average of intervals within 30% of the median, which
      is always among them: the empty-average fallback is never needed. */
  lemma TapAverageNearMedian(s: seq<real>)
    requires s != [] && Median(s) > 0.0
    ensures KeptSum(s, Median(s)).1 > 0
    ensures 0.7 * Median(s) <= AverageInterval(s) <= 1.3 * Median(s)
  {
    var median := Median(s);
    KeptNear(s, median);
    MedianKept(s, median);
    MeanNear(KeptSum(s, median).0, KeptSum(s, median).1, median);
  }

  lemma MeanNear(sum: real, n: nat, median: real)
    requires n > 0 && SumNear(sum, n, median)
    ensures 0.7 * median <= sum / n as real <= 1.3 * median
  {
    MeanBetween(sum, n as real, 0.7 * median, 1.3 * median);
  }

  lemma MeanBetween(sum: real, n: real, lo: real, hi: real)
    requires n > 0.0 && n * lo <= sum <= n * hi
    ensures lo <= sum / n <= hi
  {
    var q := sum / n;
    assert q * n == sum;
    if q < lo { MulMonoStrict(q, lo, n); }
    if q > hi { MulMonoStrict(hi, q, n); }
  }

  lemma TempoBounds(period: real)
    requires ABS_MIN_PERIOD <= period <= ABS_MAX_PERIOD
    ensures MIN_BPM <= MICROS_PER_MINUTE / period <= MAX_BPM
  {
    var b := MICROS_PER_MINUTE / period;
    assert b * period == MICROS_PER_MINUTE;
    assert ABS_MIN_PERIOD * MAX_BPM == MICROS_PER_MINUTE;
    assert ABS_MAX_PERIOD * MIN_BPM == MICROS_PER_MINUTE;
    if b > MAX_BPM {
      MulMonoStrict(MAX_BPM, b, period);
      MulMono(ABS_MIN_PERIOD, period, MAX_BPM);
    }
    if b < MIN_BPM {
      MulMonoStrict(b, MIN_BPM, period);
      MulMono(period, ABS_MAX_PERIOD, MIN_BPM);
    }
  }
}
