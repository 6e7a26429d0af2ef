/** The clock object of beat_clock.cpp; each call does to the fields what BeatModel
    says. */
module BeatClock {
  import opened Reals
  import opened BeatModel

  predicate IsWhole(x: real) {
    x.Floor as real == x
  }

  class Clock {
    var period: real
    var anchorT: real
    var anchorBeat: real
    var lastEvent: real
    var lastKnown: real
    var running: bool
    var tempoKnown: bool
    var frozenBeat: real
    var barAnchor: real
    var haveBar: bool
    var taps: array<real>
    var tapCount: nat

    ghost function St(): Model
      reads this, taps
    {
      Model(period, anchorT, anchorBeat, lastEvent, lastKnown, running, tempoKnown, frozenBeat,
            barAnchor, haveBar, taps[..], tapCount)
    }

    constructor ()
      ensures St() == INITIAL && Valid(St()) && fresh(taps)
    {
      period, anchorT, anchorBeat, lastEvent, lastKnown := DEFAULT_PERIOD, 0.0, 0.0, -1.0, -1.0;
      running, tempoKnown, frozenBeat, barAnchor, haveBar := true, false, 0.0, 0.0, false;
      taps := new real[4](_ => 0.0);
      tapCount := 0;
      new;
      assert taps[..] == INITIAL.taps;
    }

    function ContinuousBeatAt(t: real): real
      requires period != 0.0
      reads this
    {
      anchorBeat + (t - anchorT) / period
    }

    method NoteT(t: real)
      modifies this`lastKnown
      ensures St() == Note(old(St()), t)
    {
      if t > lastKnown { lastKnown := t; }
    }

    method SetBar(e: BeatEvent, beat: real)
      modifies this`barAnchor, this`haveBar
      ensures St() == BarAfter(old(St()), e, beat)
    {
      if e.isDownbeat {
        barAnchor, haveBar := beat, true;
      } else if 1 <= e.beatInBar <= BEATS_PER_BAR {
        barAnchor, haveBar := beat - (e.beatInBar - 1) as real, true;
      }
    }

    method OnBeat(e: BeatEvent)
      requires Valid(St())
      modifies this
      ensures St() == BeatModel.OnBeat(old(St()), e) && taps == old(taps)
    {
      if ReportsGarbage(e.bpm) { return; }
      var t := e.t as real;
      NoteT(t);
      if lastEvent < 0.0 {
        AnchorFirst(e);
        return;
      }
      var target := ImpliedPeriod(e);
      if target < ABS_MIN_PERIOD || target > ABS_MAX_PERIOD { return; }
      if tempoKnown && (target > period * MAX_PERIOD_JUMP || target < period / MAX_PERIOD_JUMP) { return; }
      Correct(e, target);
    }

    /** The first beat: nothing to correct against yet. */
    method AnchorFirst(e: BeatEvent)
      modifies this
      ensures St() == FirstBeat(old(St()), e) && taps == old(taps)
    {
      var t := e.t as real;
      anchorT, anchorBeat, lastEvent, running := t, 0.0, t, true;
      if e.bpm > 0.0 {
        period, tempoKnown := PeriodFor(e.bpm), true;
      }
      SetBar(e, 0.0);
    }

    /** The period an event implies: reported, or measured since the last one. */
    method ImpliedPeriod(e: BeatEvent) returns (target: real)
      requires period > 0.0
      ensures target == TargetPeriod(St(), e)
    {
      var dt := e.t as real - lastEvent;
      var beatsElapsed := Round(dt / period) as real;
      if beatsElapsed < 1.0 { beatsElapsed := 1.0; }
      target := if e.bpm > 0.0 then PeriodFor(e.bpm) else dt / beatsElapsed;
    }

    /** The PLL correction of an accepted beat. */
    method Correct(e: BeatEvent, target: real)
      requires period > 0.0 && target == TargetPeriod(St(), e)
      modifies this
      ensures St() == Corrected(old(St()), e) && taps == old(taps)
    {
      var t := e.t as real;
      var predBeat := ContinuousBeatAt(t);
      var phaseError := predBeat - Round(predBeat) as real;
      var newPeriod := NewPeriod(period, target, phaseError);
      var posDelta := Nudge(phaseError);
      anchorBeat, anchorT, period := predBeat + posDelta, t, newPeriod;
      lastEvent, running, tempoKnown := t, true, true;
      SetBar(e, anchorBeat);
    }

    method OnTempo(bpm: real)
      modifies this`period, this`tempoKnown
      ensures St() == BeatModel.OnTempo(old(St()), bpm)
    {
      if bpm <= 0.0 || bpm < MIN_BPM || bpm > MAX_BPM { return; }
      var target := PeriodFor(bpm);
      if tempoKnown && (target > period * MAX_PERIOD_JUMP || target < period / MAX_PERIOD_JUMP) { return; }
      period := Clamp(period + PERIOD_GAIN * (target - period), ABS_MIN_PERIOD, ABS_MAX_PERIOD);
      tempoKnown := true;
    }

    method Start(t: nat)
      modifies this
      ensures St() == BeatModel.Start(old(St()), t) && taps == old(taps)
    {
      NoteT(t as real);
      anchorBeat, anchorT, barAnchor, haveBar := 0.0, t as real, 0.0, false;
      lastEvent, running := t as real, true;
    }

    method Stop()
      requires Valid(St())
      modifies this`frozenBeat, this`running
      ensures St() == BeatModel.Stop(old(St()))
    {
      var at := if lastKnown >= 0.0 then lastKnown else anchorT;
      frozenBeat := if running then ContinuousBeatAt(at) else frozenBeat;
      running := false;
    }

    /** The intervals between the taps held so far, oldest first. */
    method TapIntervals() returns (s: seq<real>)
      requires taps.Length == 4 && 2 <= tapCount <= 4
      ensures s == Intervals(taps[..], tapCount)
    {
      s := [];
      var i := 4 - tapCount;
      while i + 1 < 4
        invariant 4 - tapCount <= i <= 3
        invariant s == Intervals(taps[..], tapCount)[..i - (4 - tapCount)]
      {
        s := s + [taps[i + 1] - taps[i]];
        i := i + 1;
      }
    }

    /** Sums the intervals that are not outliers. */
    method SumKept(s: seq<real>, median: real) returns (sum: real, kept: nat)
      ensures (sum, kept) == KeptSum(s, median)
    {
      sum, kept := 0.0, 0;
      for i := 0 to |s|
        invariant (sum, kept) == KeptSum(s[..i], median)
      {
        assert s[..i + 1][..i] == s[..i];
        if median > 0.0 && Abs(s[i] - median) / median > TAP_OUTLIER { continue; }
        sum, kept := sum + s[i], kept + 1;
      }
      assert s[..|s|] == s;
    }

    /** Records the tap, dropping the oldest of the four. */
    method RecordTap(t: nat)
      requires taps.Length == 4
      modifies this`lastKnown, this`tapCount, taps
      ensures old(|St().taps|) == 4 && St() == Tapped(old(St()), t)
    {
      ghost var before := St();
      NoteT(t as real);
      taps[0], taps[1], taps[2] := taps[1], taps[2], taps[3];
      taps[3] := t as real;
      if tapCount < 4 { tapCount := tapCount + 1; }
      assert taps[..] == before.taps[1..] + [t as real];
    }

    /** The average of the intervals near the median. */
    method TapAverage() returns (average: real)
      requires taps.Length == 4 && 2 <= tapCount <= 4
      ensures average == AverageInterval(Intervals(taps[..], tapCount))
    {
      var intervals := TapIntervals();
      var median := Median(intervals);
      var sum, kept := SumKept(intervals, median);
      average := if kept == 0 then median else sum / kept as real;
    }

    method Tap(t: nat)
      requires Valid(St())
      modifies this, taps
      ensures St() == BeatModel.Tap(old(St()), t) && taps == old(taps)
    {
      RecordTap(t);
      if tapCount < 2 {
        OnBeat(BeatEvent(t, 0.0, 0, false));
        return;
      }
      var average := TapAverage();
      if average <= 0.0 { return; }
      OnBeat(BeatEvent(t, MICROS_PER_MINUTE / average, 0, false));
    }

    method BeatNumber(t: nat) returns (beat: real)
      requires Valid(St())
      modifies this`lastKnown
      ensures St() == Note(old(St()), t as real) && beat == Reading(St(), t as real)
    {
      NoteT(t as real);
      if !running { return frozenBeat; }
      beat := ContinuousBeatAt(t as real);
    }

    method BeatPhase(t: nat) returns (phase: real)
      requires Valid(St())
      modifies this`lastKnown
      ensures St() == Note(old(St()), t as real)
      ensures 0.0 <= phase < 1.0 && IsWhole(Reading(St(), t as real) - phase)
    {
      var beat := BeatNumber(t);
      phase := beat - beat.Floor as real;
    }

    method BarPhase(t: nat) returns (phase: real)
      requires Valid(St())
      modifies this`lastKnown
      ensures St() == Note(old(St()), t as real)
      ensures 0.0 <= phase < 1.0
      ensures IsWhole((Reading(St(), t as real) - (if haveBar then barAnchor else 0.0)) / 4.0 - phase)
    {
      var beat := BeatNumber(t);
      var bars := (if haveBar then beat - barAnchor else beat) / BEATS_PER_BAR as real;
      phase := bars - bars.Floor as real;
    }

    method Locked() returns (locked: bool)
      requires Valid(St())
      ensures locked <==> IsLocked(St())
    {
      if !running || !tempoKnown || lastEvent < 0.0 { return false; }
      var since := if lastKnown - lastEvent < 0.0 then 0.0 else lastKnown - lastEvent;
      locked := since <= LOCK_TIMEOUT_BEATS * period;
    }

    method Bpm() returns (bpm: real)
      requires Valid(St())
      ensures bpm == 0.0 <==> !tempoKnown
      ensures tempoKnown ==> MIN_BPM <= bpm <= MAX_BPM && bpm * period == MICROS_PER_MINUTE
    {
      if !tempoKnown { return 0.0; }
      bpm := MICROS_PER_MINUTE / period;
      TempoBounds(period);
    }
  }
}
