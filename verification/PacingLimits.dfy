/**
Where the pacing bound and the frame accounting stop holding, with the runs that
show it, and why a waiting driver is always released.
 */
module PacingLimits {
  import opened Pacing

  // ------------------------------------------------------------- building runs

  lemma Extend(c: Config, run: seq<State>, step: Step) returns (longer: seq<State>)
    requires IsRun(c, run) && Enabled(c, run[|run| - 1], step)
    ensures IsRun(c, longer) && longer[|longer| - 1] == Do(c, run[|run| - 1], step)
  {
    longer := run + [Do(c, run[|run| - 1], step)];
    forall i | 0 <= i < |longer| - 1 ensures Follows(c, longer[i], longer[i + 1]) {
      if i == |run| - 1 {
        assert longer[i] == run[i];
      } else {
        assert longer[i] == run[i] && longer[i + 1] == run[i + 1];
      }
    }
  }

  // The position's offset in the buffer is zero or at least one frame.
  lemma {:induction false} OffsetOfEnd(c: Config, k: nat)
    requires Valid(c)
    ensures var off := End(c, k) % c.capacity; off == 0 || off >= c.frame
  {
    if k > 0 { OffsetOfNext(c, End(c, k - 1)); }
  }

  lemma OffsetOfNext(c: Config, pos: nat)
    requires Valid(c)
    ensures var off := Next(c, pos) % c.capacity; off == 0 || off >= c.frame
  {
    var cap, q, off := c.capacity, pos / c.capacity, pos % c.capacity;
    assert pos == cap * q + off;
    if off + c.frame <= cap {
      assert Next(c, pos) == cap * q + off + c.frame;
      NextOffset(cap, q, off, c.frame);
    } else {
      MulDistributes(cap, q, 1);
      assert Next(c, pos) == cap * (q + 1) + 0 + c.frame;
      NextOffset(cap, q + 1, 0, c.frame);
    }
  }

  lemma NextOffset(cap: nat, q: nat, off: nat, frame: nat)
    requires 0 < frame && off + frame <= cap
    ensures var x := (cap * q + off + frame) % cap; x == 0 || x == off + frame
  {
    if off + frame == cap {
      MulDistributes(cap, q, 1);
      RemainderIs(cap * q + off + frame, cap, q + 1, 0);
    } else {
      RemainderIs(cap * q + off + frame, cap, q, off + frame);
    }
  }

  lemma NextFits(c: Config, k: nat)
    requires Valid(c)
    ensures End(c, k + 1) <= End(c, k) + c.capacity
  {
    OffsetOfEnd(c, k);
  }

  // One machine, a batch of one frame: everything appended is published and applied.
  function Rest(c: Config, k: nat): State {
    State(k, End(c, k), End(c, k), End(c, k), [End(c, k)], [k], false, 0, Loop, End(c, k))
  }

  lemma {:induction false} LockstepRun(c: Config, k: nat) returns (run: seq<State>)
    requires Valid(c) && c.batch == 1 && c.fsms == 1
    ensures IsRun(c, run) && run[|run| - 1] == Rest(c, k)
  {
    if k == 0 {
      run := [Init(c)];
      assert Init(c).applied == [0] && Init(c).frames == [0];
    } else {
      run := LockstepRun(c, k - 1);
      run := AppendOne(c, run, k - 1);
      run := PublishAndApply(c, run, k);
      run := ClearPace(c, run, k);
    }
  }

  lemma AppendOne(c: Config, run: seq<State>, k: nat) returns (longer: seq<State>)
    requires Valid(c) && c.batch == 1 && IsRun(c, run) && run[|run| - 1] == Rest(c, k)
    ensures IsRun(c, longer)
    ensures longer[|longer| - 1] == Rest(c, k).(n := k + 1, append := End(c, k + 1), pc := StoreDurable)
  {
    NextFits(c, k);
    RemainderIs(k + 1, 1, k + 1, 0);
    longer := Extend(c, run, Driver);
  }

  lemma PublishAndApply(c: Config, run: seq<State>, k: nat) returns (longer: seq<State>)
    requires Valid(c) && k >= 1 && IsRun(c, run)
    requires run[|run| - 1] == Rest(c, k - 1).(n := k, append := End(c, k), pc := StoreDurable)
    ensures IsRun(c, longer) && longer[|longer| - 1] == Rest(c, k).(pc := PaceTest, scanFloor := End(c, k - 1))
  {
    longer := Extend(c, run, Driver);
    longer := Extend(c, longer, Driver);
    EndMonotone(c, k - 1, k);
    longer := Extend(c, longer, Apply(0));
    assert [End(c, k - 1)][0 := End(c, k)] == [End(c, k)] && [k - 1][0 := k] == [k];
  }

  lemma ClearPace(c: Config, run: seq<State>, k: nat) returns (longer: seq<State>)
    requires IsRun(c, run) && k >= 1 && run[|run| - 1] == Rest(c, k).(pc := PaceTest, scanFloor := End(c, k - 1))
    ensures IsRun(c, longer) && longer[|longer| - 1] == Rest(c, k)
  {
    longer := Extend(c, run, Driver);
    longer := Extend(c, longer, Driver);
    longer := Extend(c, longer, Driver);
    longer := Extend(c, longer, Driver);
  }

  // ------------------------------------------------------------ padding breaks tiling

  lemma {:induction false} FirstFrames(c: Config, k: nat)
    requires Valid(c) && k * c.frame <= c.capacity
    ensures End(c, k) == k * c.frame
  {
    if k > 0 {
      var pos := (k - 1) * c.frame;
      assert k * c.frame == pos + c.frame;
      FirstFrames(c, k - 1);
      RemainderIs(pos, c.capacity, 0, pos);
    }
  }

  // The first frame that no longer fits is preceded by padding.
  lemma PaddedFrame(c: Config) returns (k: nat)
    requires Valid(c) && !Tiles(c)
    ensures End(c, k) == k * c.frame && End(c, k + 1) > (k + 1) * c.frame && Pad(c, End(c, k)) > 0
  {
    var r;
    k, r := Divided(c.capacity, c.frame);
    FirstFrames(c, k);
    PadAt(c, k * c.frame, r);
    MulDistributes(c.frame, k, 1);
  }

  lemma Divided(cap: nat, frame: nat) returns (k: nat, r: nat)
    requires 0 < frame
    ensures k == cap / frame && r == cap % frame && cap == k * frame + r && r < frame
  {
    k, r := cap / frame, cap % frame;
  }

  // Where less than a frame is left of the buffer, all of it is padding.
  lemma PadAt(c: Config, at: nat, r: nat)
    requires Valid(c) && c.capacity == at + r && 0 < r < c.frame
    ensures Pad(c, at) == r && Next(c, at) == at + r + c.frame
  {
    assert at < c.capacity;
    RemainderIs(at, c.capacity, 0, at);
  }

  // The bound of window + batch * frame bytes is exceeded when frames do not tile the buffer ...
  lemma PaddingExceedsTheBound(c: Config) returns (run: seq<State>)
    requires Valid(c) && !Tiles(c) && c.batch == 1 && c.window == 0 && c.fsms == 1
    ensures IsRun(c, run)
    ensures var s := run[|run| - 1]; s.append > MinOf(s.applied) + c.window + c.batch * c.frame
  {
    var k := PaddedFrame(c);
    run := LockstepRun(c, k);
    run := AppendOne(c, run, k);
  }

  // ... and so is the equation between a machine's frame count and its applied position.
  lemma PaddingBreaksTheCount(c: Config) returns (run: seq<State>)
    requires Valid(c) && !Tiles(c) && c.batch == 1 && c.fsms == 1
    ensures IsRun(c, run)
    ensures var s := run[|run| - 1]; |s.applied| == |s.frames| == 1 && s.applied[0] > s.frames[0] * c.frame
  {
    var k := PaddedFrame(c);
    run := LockstepRun(c, k + 1);
  }

  // The harness's own defaults (64 MiB buffer, 64-byte payload in a 96-byte frame) do not tile.
  lemma DefaultsDoNotTile(batch: nat, window: nat, fsms: nat)
    requires fsms >= 1
    ensures Valid(Config(67108864, 96, batch, window, fsms)) && !Tiles(Config(67108864, 96, batch, window, fsms))
  {
  }

  // In every state of every run, append is at most the window plus batch * frame bytes ahead.
  ghost predicate BoundHolds(c: Config) {
    forall run: seq<State>, i: nat | IsRun(c, run) && i < |run| ::
      run[i].append <= MinOf(run[i].applied) + c.window + c.batch * c.frame
  }

  // MAIN RESULT.  For a buffer and a frame size, the bound holds for every window, every batch of at
  // least one frame and every number of machines exactly when whole frames tile the buffer.
  lemma BoundIffTiles(capacity: nat, frame: nat)
    requires 0 < frame <= capacity
    ensures (forall c: Config | c.capacity == capacity && c.frame == frame && c.batch >= 1 && c.fsms >= 1 ::
               BoundHolds(c)) <==> capacity % frame == 0
  {
    if capacity % frame == 0 {
      forall c: Config | c.capacity == capacity && c.frame == frame && c.batch >= 1 && c.fsms >= 1
        ensures BoundHolds(c)
      {
        forall run: seq<State>, i: nat | IsRun(c, run) && i < |run|
          ensures run[i].append <= MinOf(run[i].applied) + c.window + c.batch * c.frame
        {
          TiledAccounting(c, run, i);
        }
      }
    } else {
      var c := Config(capacity, frame, 1, 0, 1);
      var run := PaddingExceedsTheBound(c);
      var last: nat := |run| - 1;
      assert run[last].append > MinOf(run[last].applied) + c.window + c.batch * c.frame;
      assert !BoundHolds(c);
    }
  }

  // In every state of every run, each machine's frame count times the frame size is its applied position.
  ghost predicate CountHolds(c: Config) {
    forall run: seq<State>, i: nat, k: nat
      | IsRun(c, run) && i < |run| && k < |run[i].applied| && k < |run[i].frames| ::
      run[i].applied[k] == run[i].frames[k] * c.frame
  }

  // The same for the final tally: it comes out for every setting exactly when whole frames tile the buffer.
  lemma CountIffTiles(capacity: nat, frame: nat)
    requires 0 < frame <= capacity
    ensures (forall c: Config | c.capacity == capacity && c.frame == frame && c.fsms >= 1 :: CountHolds(c)) <==>
            capacity % frame == 0
  {
    if capacity % frame == 0 {
      forall c: Config | c.capacity == capacity && c.frame == frame && c.fsms >= 1 ensures CountHolds(c) {
        forall run: seq<State>, i: nat, k: nat
          | IsRun(c, run) && i < |run| && k < |run[i].applied| && k < |run[i].frames|
          ensures run[i].applied[k] == run[i].frames[k] * c.frame
        {
          TiledAccounting(c, run, i);
        }
      }
    } else {
      var c := Config(capacity, frame, 1, 0, 1);
      var run := PaddingBreaksTheCount(c);
      var last: nat := |run| - 1;
      assert run[last].applied[0] > run[last].frames[0] * c.frame;
      assert !CountHolds(c);
    }
  }

  // Within the first batch nothing is published and the window is ignored; a batch of zero is never complete.
  lemma {:induction false} FirstBatchRun(c: Config, k: nat) returns (run: seq<State>)
    requires Valid(c) && (c.batch == 0 || k < c.batch) && k * c.frame <= c.capacity
    ensures IsRun(c, run) && run[|run| - 1] == Init(c).(n := k, append := k * c.frame)
  {
    if k == 0 {
      run := [Init(c)];
    } else {
      assert k * c.frame == (k - 1) * c.frame + c.frame;
      run := FirstBatchRun(c, k - 1);
      FirstFrames(c, k - 1);
      FirstFrames(c, k);
      if c.batch > 0 { RemainderIs(k, c.batch, 0, k); }
      run := Extend(c, run, Driver);
    }
  }

  lemma ZeroBatchIsUnpaced(c: Config) returns (run: seq<State>)
    requires Valid(c) && c.batch == 0 && c.window < (c.capacity / c.frame) * c.frame
    ensures IsRun(c, run)
    ensures var s := run[|run| - 1]; s.append > MinOf(s.applied) + c.window + c.batch * c.frame
  {
    var k := c.capacity / c.frame;
    run := FirstBatchRun(c, k);
    MinOfIs(Init(c).applied);
  }

  // With a batch of zero, or one that does not fit the buffer, the driver fills the buffer once, with whole
  // frames, and publishes only when stopped.
  ghost predicate Unpublished(c: Config, s: State) {
    && s.append == s.n * c.frame <= c.capacity
    && (s.pc.Loop? || s.pc.FinalDurable? || s.pc.FinalCommit? || s.pc.Done?)
    && (s.pc.Loop? || s.pc.FinalDurable? ==> s.durable == 0)
  }

  lemma UnpublishedStep(c: Config, s: State, step: Step)
    requires Valid(c) && (c.batch == 0 || c.batch > c.capacity / c.frame) && Unpublished(c, s) && Enabled(c, s, step)
    ensures Unpublished(c, Do(c, s, step))
  {
    if step.Driver? && s.pc.Loop? && !s.stop {
      MulDistributes(c.frame, s.n, 1);
      OnlyWholeFrames(c, s.append);
      WholeFramesBelow(s.n + 1, c.frame, c.capacity);
      if c.batch > 0 { RemainderIs(s.n + 1, c.batch, 0, s.n + 1); }
    }
  }

  // An append that fits in the first buffer needs no padding.
  lemma OnlyWholeFrames(c: Config, pos: nat)
    requires Valid(c) && Next(c, pos) <= c.capacity
    ensures Next(c, pos) == pos + c.frame
  {
    RemainderIs(pos, c.capacity, 0, pos);
  }

  lemma {:induction false} UnpublishedRun(c: Config, run: seq<State>, i: nat)
    requires Valid(c) && (c.batch == 0 || c.batch > c.capacity / c.frame) && IsRun(c, run) && i < |run|
    ensures Unpublished(c, run[i])
  {
    if i > 0 {
      UnpublishedRun(c, run, i - 1);
      assert Follows(c, run[i - 1], run[i - 1 + 1]);
      var step :| Enabled(c, run[i - 1], step) && run[i] == Do(c, run[i - 1], step);
      UnpublishedStep(c, run[i - 1], step);
    }
  }

  lemma WholeFramesBelow(n: nat, frame: nat, capacity: nat)
    requires 0 < frame && n * frame <= capacity
    ensures n <= capacity / frame && n * frame <= (capacity / frame) * frame
  {
    var k, r := Divided(capacity, frame);
    if n > k {
      MultipleIsFar(frame, n - k);
      MulDistributes(frame, n, k);
    }
  }

  // MAIN RESULT.  With a batch of zero the bound holds exactly when the window is as large as the whole
  // frames the buffer can hold, that is, when there is nothing to pace.
  lemma ZeroBatchBoundIff(c: Config)
    requires Valid(c) && c.batch == 0
    ensures BoundHolds(c) <==> c.window >= (c.capacity / c.frame) * c.frame
  {
    if c.window >= (c.capacity / c.frame) * c.frame {
      forall run: seq<State>, i: nat | IsRun(c, run) && i < |run|
        ensures run[i].append <= MinOf(run[i].applied) + c.window + c.batch * c.frame
      {
        UnpublishedRun(c, run, i);
        WholeFramesBelow(run[i].n, c.frame, c.capacity);
      }
    } else {
      var run := ZeroBatchIsUnpaced(c);
      var last: nat := |run| - 1;
      assert run[last].append > MinOf(run[last].applied) + c.window + c.batch * c.frame;
    }
  }

  // -------------------------------------------------------------------- progress

  // The bytes up to `append` still ahead of the machines, summed over them.
  function Outstanding(applied: seq<nat>, append: nat): nat {
    if applied == [] then 0
    else (if applied[0] < append then append - applied[0] else 0) + Outstanding(applied[1..], append)
  }

  lemma {:induction false} OutstandingDrops(applied: seq<nat>, append: nat, id: nat, pos: nat)
    requires id < |applied| && applied[id] < pos <= append
    ensures Outstanding(applied[id := pos], append) == Outstanding(applied, append) - (pos - applied[id])
  {
    var after := applied[id := pos];
    if id == 0 {
      assert after[1..] == applied[1..];
    } else {
      assert after[1..] == applied[1..][id - 1 := pos];
      OutstandingDrops(applied[1..], append, id - 1, pos);
    }
  }

  lemma {:induction false} NoneOutstanding(applied: seq<nat>, append: nat)
    requires Outstanding(applied, append) == 0
    ensures forall i | 0 <= i < |applied| :: applied[i] >= append
  {
    if applied != [] { NoneOutstanding(applied[1..], append); }
  }

  predicate IsMachineStep(step: Step) {
    step.Skip? || step.Apply?
  }

  lemma MachineLowers(c: Config, s: State, published: nat, step: Step)
    requires Valid(c) && Positions(c, s, published) && Enabled(c, s, step) && IsMachineStep(step)
    ensures var s' := Do(c, s, step);
            s'.append == s.append && Outstanding(s'.applied, s.append) < Outstanding(s.applied, s.append)
  {
    var id := step.id;
    assert Swept(c, s.applied[id], s.frames[id], published);
    if step.Skip? {
      SkipSweeps(c, s.applied[id], s.frames[id], published);
    } else {
      ApplySweeps(c, s.applied[id], s.frames[id], published);
    }
    OutstandingDrops(s.applied, s.append, id, Do(c, s, step).applied[id]);
  }

  lemma SlowestIs(c: Config, s: State, published: nat) returns (slowest: nat)
    requires Valid(c) && Positions(c, s, published)
    ensures slowest < c.fsms && s.applied[slowest] == MinOf(s.applied)
    ensures Outstanding(s.applied, s.append) == 0 ==> s.append == MinOf(s.applied)
  {
    MinOfIs(s.applied);
    slowest :| 0 <= slowest < |s.applied| && s.applied[slowest] == MinOf(s.applied);
    OrderedPositions(c, s, published);
    if Outstanding(s.applied, s.append) == 0 { NoneOutstanding(s.applied, s.append); }
  }

  // What it means for a wait to be released: the slowest machine has a committed frame whenever the
  // wait goes on; each machine step lowers the outstanding bytes and no driver step of the wait
  // changes them; and with nothing outstanding the driver is level with the slowest machine.
  ghost predicate Released(c: Config, s: State, slowest: nat) {
    && slowest < c.fsms == |s.applied| == |s.frames| && s.applied[slowest] == MinOf(s.applied)
    && (s.append > MinOf(s.applied) + c.window ==> Enabled(c, s, Apply(slowest)))
    && (forall step | Enabled(c, s, step) && IsMachineStep(step) ::
          Outstanding(Do(c, s, step).applied, s.append) < Outstanding(s.applied, s.append))
    && Enabled(c, s, Driver) && DriverStep(c, s).applied == s.applied && DriverStep(c, s).append == s.append
    && (Outstanding(s.applied, s.append) == 0 ==> s.append == MinOf(s.applied))
  }

  // MAIN RESULT.  Every wait of the pace loop is released, in every run.
  lemma WaitIsReleased(c: Config, run: seq<State>, i: nat) returns (slowest: nat)
    requires Valid(c) && IsRun(c, run) && i < |run| && IsPacing(run[i].pc)
    ensures Released(c, run[i], slowest)
  {
    var s := run[i];
    InvRun(c, run, i);
    var published: nat :| Positions(c, s, published);
    slowest := SlowestIs(c, s, published);
    forall step | Enabled(c, s, step) && IsMachineStep(step)
      ensures Outstanding(Do(c, s, step).applied, s.append) < Outstanding(s.applied, s.append)
    {
      MachineLowers(c, s, published, step);
    }
    assert s.commit == s.append;
  }
}
