/** The pressure-click latch: what one processed frame does to it, and what it
    has come to mean after any history of frames. Floats are compared as
    IEEE 754 compares their patterns. */
module PressureLatch {
  import opened Words
  import opened Wire

  /** What the latch sees of a frame: how many tips, and the highest pressure
      among them that exceeds zero. */
  datatype Sample = Sample(tips: nat, maximum: U32)

  datatype Latch = Latch(down: bool, pressFrames: nat, events: nat)

  const RELEASED := Latch(false, 0, 0)

  function LatchStep(latch: Latch, sample: Sample, threshold: U32): Latch {
    if sample.tips != 1 then
      Latch(false, 0, if latch.down then latch.events + 1 else latch.events)
    else if !latch.down && FloatGreater(threshold, 0) then
      if FloatAtLeast(sample.maximum, threshold) then
        if latch.pressFrames + 1 >= 3 then Latch(true, latch.pressFrames + 1, latch.events + 1)
        else latch.(pressFrames := latch.pressFrames + 1)
      else latch.(pressFrames := 0)
    else latch
  }

  function LatchAfter(samples: seq<Sample>, threshold: U32): Latch {
    if samples == [] then RELEASED
    else LatchStep(LatchAfter(samples[..|samples| - 1], threshold), samples[|samples| - 1], threshold)
  }

  /** One finger, pressed at least as hard as an enabled threshold. */
  predicate Presses(sample: Sample, threshold: U32) {
    FloatGreater(threshold, 0) && sample.tips == 1 && FloatAtLeast(sample.maximum, threshold)
  }

  /** The length of the run of pressing frames the history ends with. */
  function TrailingPresses(samples: seq<Sample>, threshold: U32): nat {
    if samples == [] || !Presses(samples[|samples| - 1], threshold) then 0
    else TrailingPresses(samples[..|samples| - 1], threshold) + 1
  }

  /** Three consecutive pressing frames from `i`, and one finger ever since. */
  ghost predicate LatchedSince(samples: seq<Sample>, threshold: U32, i: nat) {
    && i + 3 <= |samples|
    && (forall k :: i <= k < i + 3 ==> Presses(samples[k], threshold))
    && (forall k :: i <= k < |samples| ==> samples[k].tips == 1)
  }

  ghost predicate Latched(samples: seq<Sample>, threshold: U32) {
    exists i :: LatchedSince(samples, threshold, i)
  }

  lemma {:induction false} TrailingMeans(samples: seq<Sample>, threshold: U32)
    ensures var n := TrailingPresses(samples, threshold);
      && n <= |samples|
      && (forall k :: |samples| - n <= k < |samples| ==> Presses(samples[k], threshold))
      && (n < |samples| ==> !Presses(samples[|samples| - 1 - n], threshold))
  {
    hide Presses;
    if samples != [] && Presses(samples[|samples| - 1], threshold) {
      var early := samples[..|samples| - 1];
      TrailingMeans(early, threshold);
      assert forall k :: 0 <= k < |early| ==> early[k] == samples[k];
    }
  }

  /** One more single-finger frame keeps a latched history latched; otherwise it
      latches exactly when it completes three presses in a row. */
  lemma {:induction false} LatchedStep(samples: seq<Sample>, sample: Sample, threshold: U32)
    ensures Latched(samples + [sample], threshold) <==>
      && sample.tips == 1
      && (Latched(samples, threshold)
          || (Presses(sample, threshold) && TrailingPresses(samples, threshold) >= 2))
  {
    hide Presses;
    var all, n := samples + [sample], |samples|;
    TrailingMeans(samples, threshold);
    assert forall k :: 0 <= k < n ==> all[k] == samples[k];
    assert all[n] == sample;
    PressIsSingle(threshold);
    if Latched(all, threshold) {
      var i: nat :| LatchedSince(all, threshold, i);
      if i + 3 <= n {
        assert LatchedSince(samples, threshold, i);
      } else {
        assert Presses(all[n - 1], threshold) && Presses(all[n - 2], threshold);
      }
    }
    if sample.tips == 1 && Latched(samples, threshold) {
      var i: nat :| LatchedSince(samples, threshold, i);
      assert LatchedSince(all, threshold, i);
    }
    if Presses(sample, threshold) && TrailingPresses(samples, threshold) >= 2 {
      assert LatchedSince(all, threshold, n - 2);
    }
  }

  lemma {:induction false} PressIsSingle(threshold: U32)
    ensures forall s: Sample :: Presses(s, threshold) ==> s.tips == 1
  {
  }

  /** After every history the latch is down exactly when some three consecutive
      frames pressed with one finger and every frame since the first of them had
      one finger; while it is up its counter is the length of the pressing run the
      history ends with, below three; and the event count is odd exactly while
      it is down. */
  lemma {:induction false} LatchMeans(samples: seq<Sample>, threshold: U32)
    ensures var latch := LatchAfter(samples, threshold);
      && (latch.down <==> Latched(samples, threshold))
      && (!latch.down ==> latch.pressFrames == TrailingPresses(samples, threshold) < 3)
      && (latch.events % 2 == 1 <==> latch.down)
  {
    hide FloatGreater, FloatAtLeast, Latched;
    if samples == [] {
      assert !Latched(samples, threshold) by { NeverLatched(threshold); }
    } else {
      var early, last := samples[..|samples| - 1], samples[|samples| - 1];
      LatchMeans(early, threshold);
      LatchedStep(early, last, threshold);
      assert samples == early + [last];
    }
  }

  lemma {:induction false} NeverLatched(threshold: U32)
    ensures !Latched([], threshold)
  {
  }
}
