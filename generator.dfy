/**
 * The position hysteresis machine that turns a z-score series into target
 * positions: flat (0), long the spread (1) or short the spread (-1). From
 * flat a z-score beyond the entry threshold opens a position against the
 * deviation; an open position is closed once the z-score comes back across
 * the exit threshold. A NaN z-score (modelled as `None`) is skipped: the
 * held position carries over, but the output at that index keeps its
 * initial 0.
 */
module Signals {
  import opened Wrappers

  /** 0: flat, 1: long the spread, -1: short the spread. */
  predicate IsPosition(p: int)
  {
    -1 <= p <= 1
  }

  /** One step of the state machine on a z-score that is not NaN. */
  function Transition(pos: int, z: real, entry: real, exit: real): (next: int)
    requires IsPosition(pos)
    ensures IsPosition(next)
    // never moves directly between long and short
    ensures pos != 0 ==> next == pos || next == 0
    ensures pos == 0 ==> (next == -1 <==> z > entry)
    ensures pos == 0 ==> (next == 1 <==> !(z > entry) && z < -entry)
    ensures pos == 1 ==> (next == 0 <==> z >= -exit)
    ensures pos == -1 ==> (next == 0 <==> z <= exit)
  {
    if pos == 0 then
      if z > entry then -1 else if z < -entry then 1 else 0
    else if pos == 1 then
      if z >= -exit then 0 else 1
    else
      if z <= exit then 0 else -1
  }

  /** The position held after reading zs from a flat start; a NaN leaves it as it is. */
  function PositionAfter(zs: seq<Option<real>>, entry: real, exit: real): (pos: int)
    ensures IsPosition(pos)
  {
    if |zs| == 0 then 0
    else
      var pos := PositionAfter(zs[..|zs| - 1], entry, exit);
      match zs[|zs| - 1]
      case None => pos
      case Some(z) => Transition(pos, z, entry, exit)
  }

  /** The output series: 0 at a NaN index, otherwise the position just reached. */
  function SignalSeries(zs: seq<Option<real>>, entry: real, exit: real): (signals: seq<int>)
    ensures |signals| == |zs|
    ensures forall i :: 0 <= i < |zs| ==> IsPosition(signals[i])
  {
    seq(|zs|, i requires 0 <= i < |zs| =>
      if zs[i].None? then 0 else PositionAfter(zs[..i + 1], entry, exit))
  }

  /** A NaN index outputs 0 and leaves the held position untouched. */
  lemma NaNHoldsPosition(zs: seq<Option<real>>, i: nat, entry: real, exit: real)
    requires i < |zs| && zs[i].None?
    ensures SignalSeries(zs, entry, exit)[i] == 0
    ensures PositionAfter(zs[..i + 1], entry, exit) == PositionAfter(zs[..i], entry, exit)
  {
    assert zs[..i + 1][..i] == zs[..i];
  }

  /** At a z-score index the output is the transition from the position held before it. */
  lemma SignalIsTransition(zs: seq<Option<real>>, i: nat, entry: real, exit: real)
    requires i < |zs| && zs[i].Some?
    ensures SignalSeries(zs, entry, exit)[i]
         == Transition(PositionAfter(zs[..i], entry, exit), zs[i].value, entry, exit)
  {
    assert zs[..i + 1][..i] == zs[..i];
  }

  /** Two neighbouring outputs are never +1 and -1 (in either order). */
  lemma AdjacentSignalsNeverFlip(zs: seq<Option<real>>, i: nat, entry: real, exit: real)
    requires i + 1 < |zs|
    ensures SignalSeries(zs, entry, exit)[i] * SignalSeries(zs, entry, exit)[i + 1] != -1
  {
    var signals := SignalSeries(zs, entry, exit);
    if signals[i] != 0 && zs[i + 1].Some? {
      assert signals[i] == PositionAfter(zs[..i + 1], entry, exit);
      SignalIsTransition(zs, i + 1, entry, exit);
    }
  }

  /** entry = 2, exit = 0 on [NaN, 2.5, 1.0, -0.1, -3.0, 0.1]. */
  lemma WorkedExample()
    ensures SignalSeries([None, Some(2.5), Some(1.0), Some(-0.1), Some(-3.0), Some(0.1)], 2.0, 0.0)
         == [0, -1, -1, 0, 1, 0]
  {
    var zs := [None, Some(2.5), Some(1.0), Some(-0.1), Some(-3.0), Some(0.1)];
    assert PositionAfter(zs[..1], 2.0, 0.0) == 0;
    assert PositionAfter(zs[..2], 2.0, 0.0) == -1 by { assert zs[..2][..1] == zs[..1]; }
    assert PositionAfter(zs[..3], 2.0, 0.0) == -1 by { assert zs[..3][..2] == zs[..2]; }
    assert PositionAfter(zs[..4], 2.0, 0.0) == 0 by { assert zs[..4][..3] == zs[..3]; }
    assert PositionAfter(zs[..5], 2.0, 0.0) == 1 by { assert zs[..5][..4] == zs[..4]; }
    assert PositionAfter(zs[..6], 2.0, 0.0) == 0 by { assert zs[..6][..5] == zs[..5]; }
  }

  /** The controller; its thresholds are fixed at construction. */
  class SignalGenerator {
    const entry: real
    const exit: real

    constructor (entryThreshold: real := 2.0, exitThreshold: real := 0.0)
      ensures entry == entryThreshold && exit == exitThreshold
    {
      entry := entryThreshold;
      exit := exitThreshold;
    }

    /** Walks the series once, carrying the position from index to index. */
    method GenerateSignals(zScores: seq<Option<real>>) returns (signals: seq<int>)
      ensures signals == SignalSeries(zScores, entry, exit)
    {
      signals := seq(|zScores|, _ => 0);
      var position := 0;
      for i := 0 to |zScores|
        invariant |signals| == |zScores|
        invariant position == PositionAfter(zScores[..i], entry, exit)
        invariant forall j :: 0 <= j < i ==> signals[j] == SignalSeries(zScores, entry, exit)[j]
        invariant forall j :: i <= j < |zScores| ==> signals[j] == 0
      {
        assert zScores[..i + 1][..i] == zScores[..i];
        if zScores[i].None? {
          continue;
        }
        var z := zScores[i].value;
        if position == 0 {
          if z > entry {
            position := -1;
          } else if z < -entry {
            position := 1;
          }
        } else if position == 1 {
          if z >= -exit {
            position := 0;
          }
        } else if position == -1 {
          if z <= exit {
            position := 0;
          }
        }
        signals := signals[i := position];
      }
    }
  }
}
