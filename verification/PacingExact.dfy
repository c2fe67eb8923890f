/**
Laps of the log buffer, and from them when the driver of the paced harness can wait for buffer space for ever.
 */
module PacingExact {
  import opened Pacing
  import opened PacingLimits

  // ------------------------------------------------------------- laps of the buffer

  // How many whole frames the buffer holds.
  function Lap(c: Config): nat
    requires Valid(c)
  {
    c.capacity / c.frame
  }

  lemma LapIs(c: Config)
    requires Valid(c)
    ensures 1 <= Lap(c) && Lap(c) * c.frame <= c.capacity < Lap(c) * c.frame + c.frame
  {
    var k, r := Divided(c.capacity, c.frame);
    assert k == 0 ==> k * c.frame == 0;
  }

  // In lap q, i frames from its start.
  lemma {:induction false} LapEnd(c: Config, q: nat, i: nat)
    requires Valid(c) && 1 <= i <= Lap(c)
    ensures End(c, q * Lap(c) + i) == c.capacity * q + i * c.frame
    decreases q, i
  {
    if i > 1 {
      LapEnd(c, q, i - 1);
      EndInLap(c, q, i - 1);
    } else if q > 0 {
      LapEnd(c, q - 1, Lap(c));
      EndOfNextLap(c, q - 1);
    } else {
      FirstFrames(c, 1);
    }
  }

  lemma EndInLap(c: Config, q: nat, i: nat)
    requires Valid(c) && 1 <= i < Lap(c) && End(c, q * Lap(c) + i) == c.capacity * q + i * c.frame
    ensures End(c, q * Lap(c) + i + 1) == c.capacity * q + (i + 1) * c.frame
  {
    FrameInLap(c, q, i);
  }

  lemma EndOfNextLap(c: Config, q: nat)
    requires Valid(c) && End(c, q * Lap(c) + Lap(c)) == c.capacity * q + Lap(c) * c.frame
    ensures End(c, (q + 1) * Lap(c) + 1) == c.capacity * (q + 1) + c.frame
  {
    FirstOfLap(c, q);
    OneMoreLap(q, Lap(c));
    var k := q * Lap(c) + Lap(c);
    assert End(c, k + 1) == Next(c, End(c, k));
  }

  lemma OneMoreLap(q: nat, m: nat)
    ensures (q + 1) * m == q * m + m
  {
  }

  lemma FramesFit(c: Config, i: nat)
    requires Valid(c) && i <= Lap(c)
    ensures i * c.frame <= Lap(c) * c.frame <= c.capacity
    ensures i < Lap(c) ==> i * c.frame + c.frame <= Lap(c) * c.frame
  {
    LapIs(c);
    if i < Lap(c) {
      MultipleIsFar(c.frame, Lap(c) - i);
      MulDistributes(c.frame, Lap(c), i);
    }
  }

  // Inside a lap the next frame follows directly.
  lemma FrameInLap(c: Config, q: nat, i: nat)
    requires Valid(c) && 1 <= i < Lap(c)
    ensures Next(c, c.capacity * q + i * c.frame) == c.capacity * q + (i + 1) * c.frame
  {
    FramesFit(c, i);
    assert (i + 1) * c.frame == i * c.frame + c.frame;
    RemainderIs(c.capacity * q + i * c.frame, c.capacity, q, i * c.frame);
  }

  // After the last frame of a lap the next one begins the following lap.
  lemma FirstOfLap(c: Config, q: nat)
    requires Valid(c)
    ensures Next(c, c.capacity * q + Lap(c) * c.frame) == c.capacity * (q + 1) + c.frame
  {
    LapIs(c);
    MulDistributes(c.capacity, q, 1);
    var full := Lap(c) * c.frame;
    if full == c.capacity {
      RemainderIs(c.capacity * q + full, c.capacity, q + 1, 0);
    } else {
      RemainderIs(c.capacity * q + full, c.capacity, q, full);
    }
  }

  // Whole laps later the positions are the same, moved by whole buffers.
  lemma ShiftEnd(c: Config, j: nat, laps: nat)
    requires Valid(c) && j >= 1
    ensures End(c, j + laps * Lap(c)) == End(c, j) + c.capacity * laps
  {
    var m := Lap(c);
    LapIs(c);
    var q, i := (j - 1) / m, (j - 1) % m + 1;
    assert j == q * m + i by { assert j - 1 == m * q + (j - 1) % m; }
    LapEnd(c, q, i);
    LapEnd(c, q + laps, i);
    assert (q + laps) * m + i == j + laps * m;
    MulDistributes(c.capacity, q, laps);
  }

  // A lap of frames takes at most a buffer's length.
  lemma LapSpan(c: Config, j: nat)
    requires Valid(c)
    ensures End(c, j + Lap(c)) <= End(c, j) + c.capacity
  {
    if j == 0 {
      LapIs(c);
      FirstFrames(c, Lap(c));
    } else {
      ShiftEnd(c, j, 1);
    }
  }

  lemma BatchFits(c: Config, j: nat, i: nat)
    requires Valid(c) && i <= Lap(c)
    ensures End(c, j + i) <= End(c, j) + c.capacity
  {
    LapSpan(c, j);
    EndMonotone(c, j + i, j + Lap(c));
  }

  // ------------------------------------------------------------- waiting for buffer space

  // Some run comes to a driver that waits for buffer space.
  ghost predicate Overruns(c: Config) {
    exists run: seq<State>, i: nat :: IsRun(c, run) && i < |run| && Enabled(c, run[i], Overrun)
  }

  // Nothing but the stop flag moves what the driver waits for.
  lemma OverrunStep(c: Config, s: State, step: Step)
    requires Enabled(c, s, Overrun) && Enabled(c, s, step)
    ensures Enabled(c, Do(c, s, step), Overrun) <==> !Do(c, s, step).stop
    ensures s.pc == Do(c, s, step).pc && s.append == Do(c, s, step).append && s.durable == Do(c, s, step).durable
  {
  }

  // Such a wait lasts, in every run, exactly until the stop flag is set.
  lemma {:induction false} OverrunEndsByStop(c: Config, run: seq<State>, i: nat, j: nat)
    requires IsRun(c, run) && i <= j < |run| && Enabled(c, run[i], Overrun)
    ensures Enabled(c, run[j], Overrun) <==> !run[j].stop
    decreases j
  {
    if i < j {
      OverrunEndsByStop(c, run, i, j - 1);
      assert Follows(c, run[j - 1], run[j - 1 + 1]);
      var step :| Enabled(c, run[j - 1], step) && run[j] == Do(c, run[j - 1], step);
      if !run[j - 1].stop { OverrunStep(c, run[j - 1], step); }
    }
  }

  // The start of the running batch is durable whenever the driver is about to append.
  ghost predicate Backed(c: Config, s: State)
    requires c.batch >= 1
  {
    s.pc.Loop? ==> End(c, s.n - s.n % c.batch) <= s.durable
  }

  lemma BackedStep(c: Config, s: State, step: Step)
    requires Valid(c) && c.batch >= 1 && Inv(c, s) && Backed(c, s) && Enabled(c, s, step)
    ensures Backed(c, Do(c, s, step))
  {
    NextRemainder(s.n, c.batch);
    if step.Driver? && IsPacing(s.pc) {
      var published: nat :| Positions(c, s, published);
      assert s.durable == End(c, s.n) && s.n % c.batch == 0;
    }
  }

  lemma {:induction false} BackedRun(c: Config, run: seq<State>, i: nat)
    requires Valid(c) && c.batch >= 1 && IsRun(c, run) && i < |run|
    ensures Backed(c, run[i])
  {
    if i == 0 {
      NextRemainder(0, c.batch);
    } else {
      BackedRun(c, run, i - 1);
      InvRun(c, run, i - 1);
      assert Follows(c, run[i - 1], run[i - 1 + 1]);
      var step :| Enabled(c, run[i - 1], step) && run[i] == Do(c, run[i - 1], step);
      BackedStep(c, run[i - 1], step);
    }
  }

  // A batch that fits the buffer never waits for space.
  lemma FittingBatch(c: Config, run: seq<State>, i: nat)
    requires Valid(c) && 1 <= c.batch <= Lap(c) && IsRun(c, run) && i < |run|
    ensures !Enabled(c, run[i], Overrun)
  {
    var s := run[i];
    InvRun(c, run, i);
    BackedRun(c, run, i);
    var published: nat :| Positions(c, s, published);
    NextRemainder(s.n, c.batch);
    var start := s.n - s.n % c.batch;
    BatchFits(c, start, s.n + 1 - start);
  }

  // A batch that does not fit is never published: the first one fills the buffer and waits.
  lemma FullBuffer(c: Config) returns (run: seq<State>)
    requires Valid(c) && (c.batch == 0 || c.batch > Lap(c))
    ensures IsRun(c, run) && Enabled(c, run[|run| - 1], Overrun)
  {
    LapIs(c);
    run := FirstBatchRun(c, Lap(c));
    FirstOfLap(c, 0);
  }

  // MAIN RESULT.  A driver can come to wait for buffer space, which then only the stop flag ends, if and only if
  // the batch is zero or a whole batch does not fit the buffer.
  lemma OverrunIff(c: Config)
    requires Valid(c)
    ensures Overruns(c) <==> c.batch == 0 || c.batch > Lap(c)
  {
    if c.batch == 0 || c.batch > Lap(c) {
      var run := FullBuffer(c);
      var last: nat := |run| - 1;
      assert Enabled(c, run[last], Overrun);
    } else if Overruns(c) {
      var run: seq<State>, i: nat :| IsRun(c, run) && i < |run| && Enabled(c, run[i], Overrun);
      FittingBatch(c, run, i);
    }
  }
}
