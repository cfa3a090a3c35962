/**
 * Slide timing shared by the three video services: every slide gets
 * max(floor, total / n) seconds, a non-final slide is cut to what is left of
 * the audio, the final slide takes all that is left, and allocation stops at
 * the first slide whose duration would not be positive.  The floor is 4.0 in
 * the enhanced and simple services and 3.0 in the basic one.
 */
module Timing {

  const EnhancedFloor: real := 4.0
  const SimpleFloor: real := 4.0
  const BasicFloor: real := 3.0

  function Max(a: real, b: real): real { if a >= b then a else b }
  function Min(a: real, b: real): real { if a <= b then a else b }

  /** The nominal slide length for n sentences. */
  function Base(total: real, n: nat, floor: real): (b: real)
    requires n >= 1
    ensures b >= floor && b * (n as real) >= total
  {
    Max(floor, total / (n as real))
  }

  /** The duration slide i would get after elapsed seconds have been handed out. */
  function Slot(total: real, n: nat, base: real, i: nat, elapsed: real): real {
    if i == n - 1 then total - elapsed else Min(base, total - elapsed)
  }

  /** The durations handed out from slide i on, stopping at the first one that is not positive. */
  function ScheduleFrom(total: real, n: nat, base: real, i: nat, elapsed: real): (ds: seq<real>)
    ensures i <= n ==> |ds| <= n - i
    decreases n - i
  {
    if i >= n then []
    else
      var d := Slot(total, n, base, i, elapsed);
      if d <= 0.0 then [] else [d] + ScheduleFrom(total, n, base, i + 1, elapsed + d)
  }

  /** The durations of the slides a video built from n sentences and total seconds of audio has. */
  function Schedule(total: real, n: nat, floor: real): (ds: seq<real>)
    requires n >= 1
    ensures |ds| <= n
  {
    ScheduleFrom(total, n, Base(total, n, floor), 0, 0.0)
  }

  function Sum(ds: seq<real>): real {
    if ds == [] then 0.0 else ds[0] + Sum(ds[1..])
  }

  /**
   * The allocation loop of the services: elapsed plays the part of current_time,
   * and the loop leaves at the first duration that is not positive.
   */
  method Allocate(total: real, n: nat, floor: real) returns (durations: seq<real>)
    requires n >= 1
    ensures durations == Schedule(total, n, floor)
  {
    var base := Max(floor, total / (n as real));
    assert base == Base(total, n, floor);
    var elapsed := 0.0;
    durations := [];
    var i := 0;
    while i < n
      invariant 0 <= i <= n
      invariant durations + ScheduleFrom(total, n, base, i, elapsed) == Schedule(total, n, floor)
      decreases n - i
    {
      var d := if i == n - 1 then total - elapsed else Min(base, total - elapsed);
      assert d == Slot(total, n, base, i, elapsed);
      if d <= 0.0 {
        break;
      }
      assert ScheduleFrom(total, n, base, i, elapsed) == [d] + ScheduleFrom(total, n, base, i + 1, elapsed + d);
      durations := durations + [d];
      elapsed := elapsed + d;
      i := i + 1;
    }
  }

  /** Every duration handed out is positive and there are at most as many as there are slides left. */
  lemma {:induction false} ScheduleFromShape(total: real, n: nat, base: real, i: nat, elapsed: real)
    requires i <= n
    ensures |ScheduleFrom(total, n, base, i, elapsed)| <= n - i
    ensures forall k :: 0 <= k < |ScheduleFrom(total, n, base, i, elapsed)| ==> ScheduleFrom(total, n, base, i, elapsed)[k] > 0.0
    decreases n - i
  {
    if i < n {
      var d := Slot(total, n, base, i, elapsed);
      if d > 0.0 {
        ScheduleFromShape(total, n, base, i + 1, elapsed + d);
        var rest := ScheduleFrom(total, n, base, i + 1, elapsed + d);
        var ds := [d] + rest;
        assert forall k :: 1 <= k < |ds| ==> ds[k] == rest[k - 1];
      }
    }
  }

  /** Timing totals: positive durations, at most one per sentence. */
  lemma ScheduleShape(total: real, n: nat, floor: real)
    requires n >= 1
    ensures |Schedule(total, n, floor)| <= n
    ensures forall k :: 0 <= k < |Schedule(total, n, floor)| ==> Schedule(total, n, floor)[k] > 0.0
  {
    ScheduleFromShape(total, n, Base(total, n, floor), 0, 0.0);
  }

  lemma {:induction false} ScheduleFromSum(total: real, n: nat, base: real, i: nat, elapsed: real)
    requires base > 0.0 && i <= n && elapsed <= total
    requires i == n ==> elapsed == total
    ensures Sum(ScheduleFrom(total, n, base, i, elapsed)) == total - elapsed
    decreases n - i
  {
    if i < n {
      var d := Slot(total, n, base, i, elapsed);
      if d > 0.0 {
        ScheduleFromSum(total, n, base, i + 1, elapsed + d);
      }
    }
  }

  /** With some audio, the slide durations add up to exactly the audio length. */
  lemma ScheduleSum(total: real, n: nat, floor: real)
    requires n >= 1 && total > 0.0
    ensures Sum(Schedule(total, n, floor)) == total
  {
    ScheduleFromSum(total, n, Base(total, n, floor), 0, 0.0);
  }

  /** No audio: no slide gets a duration, so no clip is built. */
  lemma NoAudioNoSlides(total: real, n: nat, floor: real)
    requires n >= 1 && total <= 0.0
    ensures Schedule(total, n, floor) == []
  {
  }

  lemma {:induction false} ScheduleFromBase(total: real, n: nat, base: real, i: nat, elapsed: real)
    ensures forall k :: 0 <= k < |ScheduleFrom(total, n, base, i, elapsed)| - 1 ==> ScheduleFrom(total, n, base, i, elapsed)[k] == base
    decreases n - i
  {
    if i < n {
      var d := Slot(total, n, base, i, elapsed);
      if d > 0.0 {
        ScheduleFromBase(total, n, base, i + 1, elapsed + d);
        var rest := ScheduleFrom(total, n, base, i + 1, elapsed + d);
        var ds := [d] + rest;
        assert forall k :: 1 <= k < |ds| ==> ds[k] == rest[k - 1];
        if rest != [] {
          assert i < n - 1;
          assert Slot(total, n, base, i + 1, elapsed + d) <= total - (elapsed + d);
          assert d < total - elapsed;
          assert d == base;
        }
      }
    }
  }

  /** Every slide except possibly the last gets exactly the nominal length max(floor, total/n). */
  lemma ScheduleAllButLast(total: real, n: nat, floor: real)
    requires n >= 1
    ensures forall k :: 0 <= k < |Schedule(total, n, floor)| - 1 ==> Schedule(total, n, floor)[k] == Base(total, n, floor)
  {
    ScheduleFromBase(total, n, Base(total, n, floor), 0, 0.0);
  }

  /** A single sentence receives the whole audio. */
  lemma SingleSentence(total: real, floor: real)
    requires total > 0.0
    ensures Schedule(total, 1, floor) == [total]
  {
  }

  /** Audio no longer than the floor is shown on one slide, however many sentences there are. */
  lemma ShortAudioOneSlide(total: real, n: nat, floor: real)
    requires n >= 1 && 0.0 < total <= floor
    ensures Schedule(total, n, floor) == [total]
  {
    var base := Base(total, n, floor);
    assert base == floor by {
      assert total / (n as real) <= total by {
        assert (n as real) >= 1.0;
      }
    }
    assert Slot(total, n, base, 0, 0.0) == total;
    if n > 1 {
      assert ScheduleFrom(total, n, base, 1, total) == [];
    }
  }

  lemma {:induction false} EvenFrom(total: real, d: real, n: nat, i: nat, elapsed: real)
    requires d > 0.0 && i <= n
    requires total - elapsed == d * ((n - i) as real)
    ensures ScheduleFrom(total, n, d, i, elapsed) == seq(n - i, _ => d)
    decreases n - i
  {
    if i < n {
      var m := (n - i - 1) as real;
      assert d * ((n - i) as real) == d + d * m;
      assert d * m >= 0.0;
      assert Slot(total, n, d, i, elapsed) == d;
      EvenFrom(total, d, n, i + 1, elapsed + d);
      assert seq(n - i, _ => d) == [d] + seq(n - (i + 1), _ => d);
    }
  }

  /** When total/n already reaches the floor, every sentence gets exactly total/n seconds. */
  lemma EvenSplit(total: real, n: nat, floor: real)
    requires n >= 1 && total > 0.0 && total / (n as real) >= floor
    ensures Schedule(total, n, floor) == seq(n, _ => total / (n as real))
  {
    var d := total / (n as real);
    assert d * (n as real) == total;
    EvenFrom(total, d, n, 0, 0.0);
  }

  /** Twelve seconds over three sentences with the 4.0 floor: three four-second slides. */
  lemma TwelveSecondsThreeSlides()
    ensures Schedule(12.0, 3, EnhancedFloor) == [4.0, 4.0, 4.0]
  {
    EvenSplit(12.0, 3, EnhancedFloor);
  }

  /** One second over five sentences: one one-second slide, the other sentences are never shown. */
  lemma OneSecondFiveSentences()
    ensures Schedule(1.0, 5, EnhancedFloor) == [1.0]
  {
    ShortAudioOneSlide(1.0, 5, EnhancedFloor);
  }

  /** Ten seconds over four sentences with the 3.0 floor: 3 + 3 + 3 + 1. */
  lemma TenSecondsBasicFloor()
    ensures Schedule(10.0, 4, BasicFloor) == [3.0, 3.0, 3.0, 1.0]
  {
    assert Base(10.0, 4, BasicFloor) == 3.0;
  }
}
