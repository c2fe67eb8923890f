/**
For one setting of the paced harness, exactly when the bound of the window plus batch times frame bytes holds.
Bytes that pad the end of the buffer can break it; whether they do depends on where the machines can stand when a
batch is let past, and that is a question about positions alone.
 */
module PacingBound {
  import Options
  import opened Pacing
  import opened PacingLimits
  import opened PacingExact

  // ------------------------------------------------------------- the bound from positions alone

  // A machine that has applied j frames can rest here: behind them, or behind the padding that follows.
  predicate Slot(c: Config, j: nat, pos: nat) {
    pos == End(c, j) || pos == End(c, j) + Pad(c, End(c, j))
  }

  // Whatever place the window lets the slowest machine have when a batch is passed, the next batch stays within
  // the bound from there.
  ghost predicate Within(c: Config) {
    forall k: nat, j: nat, pos: nat :: Row(c, k, j, pos)
  }

  predicate Row(c: Config, k: nat, j: nat, pos: nat) {
    Allowed(c, k, j, pos) ==> Near(c, k, pos)
  }

  // After k batches the window lets the driver past a machine that has j frames and rests at pos.
  predicate Allowed(c: Config, k: nat, j: nat, pos: nat) {
    Slot(c, j, pos) && pos <= End(c, k * c.batch) <= pos + c.window
  }

  predicate Near(c: Config, k: nat, pos: nat) {
    End(c, (k + 1) * c.batch) <= pos + c.window + c.batch * c.frame
  }

  // The last batch the driver was let past is the k-th, and it has appended at most one more since.
  ghost predicate PassedAt(c: Config, s: State, k: nat) {
    && k * c.batch <= s.n <= (k + 1) * c.batch && (s.pc.Loop? && !s.stop ==> s.n < (k + 1) * c.batch)
    && forall i | 0 <= i < |s.applied| :: End(c, k * c.batch) <= s.applied[i] + c.window
  }

  lemma WholeBatches(n: nat, b: nat)
    requires b >= 1
    ensures n % b == 0 ==> n == (n / b) * b && n < (n / b + 1) * b
    ensures forall k: nat :: n == k * b ==> n % b == 0
  {
    if n % b == 0 { assert (n / b + 1) * b == (n / b) * b + b; }
    forall k: nat | n == k * b ensures n % b == 0 { RemainderIs(n, b, k, 0); }
  }

  lemma PassedStep(c: Config, s: State, step: Step, k: nat) returns (k': nat)
    requires Valid(c) && c.batch >= 1 && Inv(c, s) && PassedAt(c, s, k) && Enabled(c, s, step)
    ensures PassedAt(c, Do(c, s, step), k')
  {
    k' := k;
    if step.Driver? {
      if s.pc.Decide? && Do(c, s, step).pc.Loop? {
        k' := PassedDecide(c, s);
      } else {
        PassedDriver(c, s, k);
      }
    }
  }

  // The driver is let past: its whole batches are the new count.
  lemma PassedDecide(c: Config, s: State) returns (k: nat)
    requires Valid(c) && c.batch >= 1 && Inv(c, s) && s.pc.Decide? && DriverStep(c, s).pc.Loop?
    ensures PassedAt(c, DriverStep(c, s), k)
  {
    WholeBatches(s.n, c.batch);
    k := s.n / c.batch;
    var published: nat :| Positions(c, s, published);
  }

  lemma PassedDriver(c: Config, s: State, k: nat)
    requires Valid(c) && c.batch >= 1 && Inv(c, s) && PassedAt(c, s, k) && Enabled(c, s, Driver)
    requires !(s.pc.Decide? && DriverStep(c, s).pc.Loop?)
    ensures PassedAt(c, DriverStep(c, s), k)
  {
    WholeBatches(s.n + 1, c.batch);
  }

  lemma {:induction false} PassedRun(c: Config, run: seq<State>, i: nat) returns (k: nat)
    requires Valid(c) && c.batch >= 1 && IsRun(c, run) && i < |run|
    ensures PassedAt(c, run[i], k)
  {
    if i == 0 {
      k := 0;
    } else {
      k := PassedRun(c, run, i - 1);
      InvRun(c, run, i - 1);
      assert Follows(c, run[i - 1], run[i - 1 + 1]);
      k := PassedFollows(c, run[i - 1], run[i], k);
    }
  }

  lemma PassedFollows(c: Config, s: State, s': State, k: nat) returns (k': nat)
    requires Valid(c) && c.batch >= 1 && Inv(c, s) && PassedAt(c, s, k) && Follows(c, s, s')
    ensures PassedAt(c, s', k')
  {
    var step :| Enabled(c, s, step) && s' == Do(c, s, step);
    k' := PassedStep(c, s, step, k);
  }

  // The append position of such a state, from the place of any machine.
  lemma PassedAppend(c: Config, s: State, k: nat, x: nat)
    requires Valid(c) && c.batch >= 1 && Within(c) && Inv(c, s) && PassedAt(c, s, k) && x < |s.applied|
    ensures s.append <= s.applied[x] + c.window + c.batch * c.frame
  {
    var published: nat :| Positions(c, s, published);
    EndMonotone(c, s.n, (k + 1) * c.batch);
    assert Near(c, k, s.applied[x]) by {
      if s.applied[x] <= End(c, k * c.batch) {
        assert Swept(c, s.applied[x], s.frames[x], published);
        assert Row(c, k, s.frames[x], s.applied[x]);
      } else {
        assert Row(c, k, k * c.batch, End(c, k * c.batch));
      }
    }
  }

  lemma WithinHolds(c: Config, run: seq<State>, i: nat)
    requires Valid(c) && c.batch >= 1 && Within(c) && IsRun(c, run) && i < |run|
    ensures run[i].append <= MinOf(run[i].applied) + c.window + c.batch * c.frame
  {
    InvRun(c, run, i);
    var k := PassedRun(c, run, i);
    MinOfIs(run[i].applied);
    var x :| 0 <= x < |run[i].applied| && run[i].applied[x] == MinOf(run[i].applied);
    PassedAppend(c, run[i], k, x);
  }

  // ------------------------------------------------------------- every such place is reached

  // The first `moved` of n slots at a, the others at b.
  function Slots(n: nat, moved: nat, a: nat, b: nat): seq<nat> {
    seq(n, i => if i < moved then a else b)
  }

  // All machines stand at pos after j frames.
  predicate Together(c: Config, s: State, j: nat, pos: nat) {
    s.applied == Slots(c.fsms, 0, pos, pos) && s.frames == Slots(c.fsms, 0, j, j)
  }

  // The driver has passed k batches, all published, and is about to append.
  predicate Rests(c: Config, s: State, k: nat, j: nat, pos: nat) {
    && s.n == k * c.batch && s.append == s.durable == s.commit == End(c, s.n) && !s.stop && s.pc.Loop?
    && Together(c, s, j, pos)
  }

  function Last(run: seq<State>): State
    requires run != []
  {
    run[|run| - 1]
  }

  // The next i frames of a batch.
  lemma {:induction false} AppendSome(c: Config, run: seq<State>, k: nat, i: nat) returns (longer: seq<State>)
    requires Valid(c) && 1 <= c.batch <= Lap(c) && i <= c.batch && IsRun(c, run)
    requires Last(run).n == k * c.batch && Last(run).append == Last(run).durable == End(c, k * c.batch)
    requires !Last(run).stop && Last(run).pc.Loop?
    ensures IsRun(c, longer)
    ensures var n := k * c.batch + i;
            Last(longer) == Last(run).(n := n, append := End(c, n),
                                       pc := if i == c.batch then StoreDurable else Loop)
  {
    if i == 0 {
      longer := run;
    } else {
      longer := AppendSome(c, run, k, i - 1);
      BatchFits(c, k * c.batch, i);
      InBatch(k, c.batch, i);
      longer := Extend(c, longer, Driver);
    }
  }

  lemma InBatch(k: nat, b: nat, i: nat)
    requires 1 <= i <= b
    ensures IsMultipleOf(k * b + i, b) <==> i == b
  {
    if i == b { RemainderIs(k * b + i, b, k + 1, 0); } else { RemainderIs(k * b + i, b, k, i); }
  }

  // One machine moves on to a place that is committed.
  lemma {:induction false} MoveOne(c: Config, run: seq<State>, id: nat, j0: nat, j: nat) returns (longer: seq<State>)
    requires Valid(c) && IsRun(c, run) && id < |Last(run).applied| == |Last(run).frames| && j0 <= j
    requires Last(run).applied[id] == End(c, j0) && Last(run).frames[id] == j0 && End(c, j) <= Last(run).commit
    ensures IsRun(c, longer)
    ensures var s := Last(run);
            Last(longer) == s.(applied := s.applied[id := End(c, j)], frames := s.frames[id := j])
    decreases j - j0
  {
    var s := Last(run);
    if j == j0 {
      longer := run;
      assert s.applied[id := End(c, j)] == s.applied && s.frames[id := j] == s.frames;
    } else {
      EndMonotone(c, j0, j);
      longer := Extend(c, run, Apply(id));
      var s' := Last(longer);
      longer := MoveOne(c, longer, id, j0 + 1, j);
      assert s'.applied[id := End(c, j)] == s.applied[id := End(c, j)];
      assert s'.frames[id := j] == s.frames[id := j];
    }
  }

  // The same, and over the padding where it stops behind that.
  lemma MoveTo(c: Config, run: seq<State>, id: nat, j0: nat, j: nat, pos: nat) returns (longer: seq<State>)
    requires Valid(c) && IsRun(c, run) && id < |Last(run).applied| == |Last(run).frames| && j0 <= j
    requires Last(run).applied[id] == End(c, j0) && Last(run).frames[id] == j0
    requires Slot(c, j, pos) && pos <= Last(run).commit
    ensures IsRun(c, longer)
    ensures var s := Last(run); Last(longer) == s.(applied := s.applied[id := pos], frames := s.frames[id := j])
  {
    var s := Last(run);
    longer := MoveOne(c, run, id, j0, j);
    if pos != End(c, j) {
      longer := Extend(c, longer, Skip(id));
      assert s.applied[id := End(c, j)][id := pos] == s.applied[id := pos];
    }
  }

  lemma {:induction false} MoveFirst(c: Config, run: seq<State>, moved: nat, j0: nat, j: nat, pos: nat)
    returns (longer: seq<State>)
    requires Valid(c) && IsRun(c, run) && moved <= c.fsms && j0 <= j && Together(c, Last(run), j0, End(c, j0))
    requires Slot(c, j, pos) && pos <= Last(run).commit
    ensures IsRun(c, longer)
    ensures Last(longer) == Last(run).(applied := Slots(c.fsms, moved, pos, End(c, j0)),
                                       frames := Slots(c.fsms, moved, j, j0))
    decreases moved
  {
    if moved == 0 {
      longer := run;
      assert Slots(c.fsms, 0, pos, End(c, j0)) == Slots(c.fsms, 0, End(c, j0), End(c, j0));
      assert Slots(c.fsms, 0, j, j0) == Slots(c.fsms, 0, j0, j0);
    } else {
      var id := moved - 1;
      longer := MoveFirst(c, run, id, j0, j, pos);
      longer := MoveTo(c, longer, id, j0, j, pos);
      assert Slots(c.fsms, id, pos, End(c, j0))[id := pos] == Slots(c.fsms, moved, pos, End(c, j0));
      assert Slots(c.fsms, id, j, j0)[id := j] == Slots(c.fsms, moved, j, j0);
    }
  }

  lemma MoveAll(c: Config, run: seq<State>, j0: nat, j: nat, pos: nat) returns (longer: seq<State>)
    requires Valid(c) && IsRun(c, run) && j0 <= j && Together(c, Last(run), j0, End(c, j0))
    requires Slot(c, j, pos) && pos <= Last(run).commit
    ensures IsRun(c, longer) && Together(c, Last(longer), j, pos)
    ensures Last(longer) == Last(run).(applied := Last(longer).applied, frames := Last(longer).frames)
  {
    longer := MoveFirst(c, run, c.fsms, j0, j, pos);
    assert Slots(c.fsms, c.fsms, pos, End(c, j0)) == Slots(c.fsms, 0, pos, pos);
    assert Slots(c.fsms, c.fsms, j, j0) == Slots(c.fsms, 0, j, j);
  }

  // The scan over machines that stand together reads their place.
  lemma {:induction false} ScanTogether(c: Config, run: seq<State>, j: nat, pos: nat, slot: nat)
    returns (longer: seq<State>)
    requires Valid(c) && IsRun(c, run) && Together(c, Last(run), j, pos) && slot <= c.fsms
    requires Last(run).pc == Scan(slot, if slot == 0 then Options.None else Options.Some(pos))
    ensures IsRun(c, longer) && Last(longer) == Last(run).(pc := Decide(pos))
    decreases c.fsms - slot
  {
    longer := Extend(c, run, Driver);
    if slot < c.fsms { longer := ScanTogether(c, longer, j, pos, slot + 1); }
  }

  // A published batch is let past when the machines stand within the window.
  lemma LetPast(c: Config, run: seq<State>, k: nat, j: nat, pos: nat) returns (longer: seq<State>)
    requires Valid(c) && IsRun(c, run) && Together(c, Last(run), j, pos) && Last(run).pc.PaceTest? && !Last(run).stop
    requires Last(run).n == k * c.batch
    requires Last(run).append == Last(run).durable == Last(run).commit == End(c, k * c.batch)
    requires pos <= End(c, k * c.batch) <= pos + c.window
    ensures IsRun(c, longer) && Rests(c, Last(longer), k, j, pos)
  {
    longer := Extend(c, run, Driver);
    longer := ScanTogether(c, longer, j, pos, 0);
    longer := Extend(c, longer, Driver);
  }

  // One more batch: appended, published, with the machines where they were.
  lemma OneBatch(c: Config, run: seq<State>, k: nat, j: nat, pos: nat) returns (longer: seq<State>)
    requires Valid(c) && 1 <= c.batch <= Lap(c) && IsRun(c, run) && Rests(c, Last(run), k, j, pos)
    ensures IsRun(c, longer) && Together(c, Last(longer), j, pos) && Last(longer).pc.PaceTest? && !Last(longer).stop
    ensures Last(longer).n == (k + 1) * c.batch
    ensures Last(longer).append == Last(longer).durable == Last(longer).commit == End(c, (k + 1) * c.batch)
  {
    longer := AppendSome(c, run, k, c.batch);
    assert k * c.batch + c.batch == (k + 1) * c.batch;
    longer := Extend(c, longer, Driver);
    longer := Extend(c, longer, Driver);
  }

  // Every place the window allows at the k-th batch is reached by all machines at once.
  lemma {:induction false} ReachRest(c: Config, k: nat, j: nat, pos: nat) returns (run: seq<State>)
    requires Valid(c) && 1 <= c.batch <= Lap(c) && Allowed(c, k, j, pos)
    ensures IsRun(c, run) && Rests(c, Last(run), k, j, pos)
    decreases k
  {
    if k == 0 {
      run := AtStart(c, j, pos);
    } else {
      var start := (k - 1) * c.batch;
      assert k * c.batch == start + c.batch;
      EndMonotone(c, start, k * c.batch);
      if pos <= End(c, start) {
        run := ReachRest(c, k - 1, j, pos);
        run := OneBatch(c, run, k - 1, j, pos);
      } else {
        run := ReachRest(c, k - 1, start, End(c, start));
        run := OneBatch(c, run, k - 1, start, End(c, start));
        SlotBehind(c, start, j, pos);
        run := MoveAll(c, run, start, j, pos);
      }
      run := LetPast(c, run, k, j, pos);
    }
  }

  // A place beyond the end of some frames comes after at least as many.
  lemma SlotBehind(c: Config, start: nat, j: nat, pos: nat)
    requires Valid(c) && Slot(c, j, pos) && pos > End(c, start)
    ensures start <= j
  {
    if j < start { EndMonotone(c, j + 1, start); }
  }

  lemma AtStart(c: Config, j: nat, pos: nat) returns (run: seq<State>)
    requires Valid(c) && Slot(c, j, pos) && pos <= End(c, 0)
    ensures IsRun(c, run) && Rests(c, Last(run), 0, j, pos)
  {
    EndMonotone(c, 0, j);
    run := [Init(c)];
    assert 0 * c.batch == 0;
    assert Init(c).applied == Slots(c.fsms, 0, 0, 0) == Init(c).frames;
  }

  lemma TogetherMin(c: Config, s: State, j: nat, pos: nat)
    requires Valid(c) && Together(c, s, j, pos)
    ensures MinOf(s.applied) == pos
  {
    MinOfIs(s.applied);
  }

  // A large batch is never published, so the bound holds for want of frames.
  lemma LargeBatchHolds(c: Config, run: seq<State>, i: nat)
    requires Valid(c) && c.batch > Lap(c) && IsRun(c, run) && i < |run|
    ensures run[i].append <= MinOf(run[i].applied) + c.window + c.batch * c.frame
  {
    UnpublishedRun(c, run, i);
    WholeFramesBelow(run[i].n, c.frame, c.capacity);
    MultipleIsFar(c.frame, c.batch - run[i].n);
    MulDistributes(c.frame, c.batch, run[i].n);
  }

  // With a batch of at least one, the bound holds in every state of every run if and only if a batch does not fit
  // the buffer, or no place that the window allows when a batch is passed leaves the next batch out of the bound.
  lemma BoundByPlaces(c: Config)
    requires Valid(c) && c.batch >= 1
    ensures BoundHolds(c) <==> c.batch > Lap(c) || Within(c)
  {
    if c.batch > Lap(c) || Within(c) {
      forall run: seq<State>, i: nat | IsRun(c, run) && i < |run|
        ensures run[i].append <= MinOf(run[i].applied) + c.window + c.batch * c.frame
      {
        if c.batch > Lap(c) { LargeBatchHolds(c, run, i); } else { WithinHolds(c, run, i); }
      }
    } else {
      var k: nat, j: nat, pos: nat :| !Row(c, k, j, pos);
      var run := ReachRest(c, k, j, pos);
      run := OneBatch(c, run, k, j, pos);
      TogetherMin(c, Last(run), j, pos);
      var last: nat := |run| - 1;
      assert run[last].append > MinOf(run[last].applied) + c.window + c.batch * c.frame;
    }
  }

  // ------------------------------------------------------------- the condition as a finite table

  // The same, for the batches of one stretch of laps behind the window and the frames published by then.
  predicate WithinTable(c: Config)
    requires Valid(c)
  {
    forall k: nat, j: nat | c.window < k <= c.window + Lap(c) && j <= k * c.batch ::
      Row(c, k, j, End(c, j)) && Row(c, k, j, End(c, j) + Pad(c, End(c, j)))
  }

  lemma ShiftPad(c: Config, pos: nat, laps: nat)
    requires Valid(c)
    ensures Pad(c, pos + c.capacity * laps) == Pad(c, pos)
  {
    var q, r := Divided(pos, c.capacity);
    MulDistributes(c.capacity, q, laps);
    RemainderIs(pos + c.capacity * laps, c.capacity, q + laps, r);
    RemainderIs(pos, c.capacity, q, r);
  }

  // The frames of whole laps end at a buffer's end, or before its padding.
  lemma LapsEnd(c: Config, laps: nat)
    requires Valid(c) && laps >= 1
    ensures var pos := End(c, laps * Lap(c)); pos + Pad(c, pos) == c.capacity * laps
  {
    LapIs(c);
    assert laps * Lap(c) == (laps - 1) * Lap(c) + Lap(c);
    LapEnd(c, laps - 1, Lap(c));
    FirstOfLap(c, laps - 1);
  }

  lemma SlotLater(c: Config, j: nat, pos: nat, laps: nat)
    requires Valid(c) && laps >= 1 && Slot(c, j, pos)
    ensures Slot(c, j + laps * Lap(c), pos + c.capacity * laps)
  {
    if j == 0 {
      LapsEnd(c, laps);
    } else {
      ShiftEnd(c, j, laps);
      ShiftPad(c, End(c, j), laps);
    }
  }

  lemma SlotEarlier(c: Config, j: nat, pos: nat, laps: nat)
    requires Valid(c) && laps >= 1 && Slot(c, j, pos) && c.capacity * laps <= pos
    ensures laps * Lap(c) <= j && Slot(c, j - laps * Lap(c), pos - c.capacity * laps)
  {
    LapsEnd(c, laps);
    if j < laps * Lap(c) { EndMonotone(c, j + 1, laps * Lap(c)); }
    if j > laps * Lap(c) {
      ShiftEnd(c, j - laps * Lap(c), laps);
      ShiftPad(c, End(c, j - laps * Lap(c)), laps);
    }
  }

  // A batch and the same batch of as many laps later as a batch has frames.
  lemma ShiftBatch(c: Config, k: nat)
    requires Valid(c) && c.batch >= 1 && k >= 1
    ensures End(c, (k + Lap(c)) * c.batch) == End(c, k * c.batch) + c.capacity * c.batch
  {
    MultipleIsFar(c.batch, k);
    ShiftEnd(c, k * c.batch, c.batch);
    assert (k + Lap(c)) * c.batch == k * c.batch + c.batch * Lap(c);
  }

  lemma NearLater(c: Config, k: nat, pos: nat)
    requires Valid(c) && c.batch >= 1
    ensures Near(c, k + Lap(c), pos + c.capacity * c.batch) <==> Near(c, k, pos)
  {
    ShiftBatch(c, k + 1);
  }

  lemma ShiftRow(c: Config, k: nat, j: nat, pos: nat)
    requires Valid(c) && c.batch >= 1 && k >= 1
    ensures Row(c, k + Lap(c), j + c.batch * Lap(c), pos + c.capacity * c.batch) && Slot(c, j, pos) ==>
              Row(c, k, j, pos)
  {
    ShiftBatch(c, k);
    NearLater(c, k, pos);
    if Slot(c, j, pos) { SlotLater(c, j, pos, c.batch); }
  }

  lemma RowInTable(c: Config, k: nat, j: nat, pos: nat)
    requires Valid(c) && c.batch >= 1 && WithinTable(c) && c.window < k <= c.window + Lap(c)
    ensures Row(c, k, j, pos)
  {
    if Allowed(c, k, j, pos) && j > k * c.batch { EndMonotone(c, k * c.batch, j); }
    assert j <= k * c.batch ==> Row(c, k, j, End(c, j)) && Row(c, k, j, End(c, j) + Pad(c, End(c, j)));
  }

  lemma {:induction false} BatchesAtLeast(c: Config, k: nat)
    requires Valid(c) && c.batch >= 1
    ensures k <= End(c, k * c.batch)
  {
    if k > 0 {
      BatchesAtLeast(c, k - 1);
      assert k * c.batch == (k - 1) * c.batch + c.batch;
      EndMonotone(c, (k - 1) * c.batch, k * c.batch);
    }
  }

  // Beyond the window the slowest machine's place has a place whole buffers before it.
  lemma FarPlace(c: Config, k: nat, j: nat, pos: nat) returns (j': nat, pos': nat)
    requires Valid(c) && c.batch >= 1 && c.window + Lap(c) < k && Allowed(c, k, j, pos)
    ensures pos == pos' + c.capacity * c.batch && Allowed(c, k - Lap(c), j', pos')
  {
    var start := k - Lap(c);
    ShiftBatch(c, start);
    BatchesAtLeast(c, start);
    SlotEarlier(c, j, pos, c.batch);
    j', pos' := j - c.batch * Lap(c), pos - c.capacity * c.batch;
  }

  lemma {:induction false} RowBehind(c: Config, k: nat, j: nat, pos: nat)
    requires Valid(c) && c.batch >= 1 && WithinTable(c) && c.window < k
    ensures Row(c, k, j, pos)
    decreases k
  {
    LapIs(c);
    if k <= c.window + Lap(c) {
      RowInTable(c, k, j, pos);
    } else if Allowed(c, k, j, pos) {
      var j', pos' := FarPlace(c, k, j, pos);
      RowBehind(c, k - Lap(c), j', pos');
      NearLater(c, k - Lap(c), pos');
    }
  }

  lemma {:induction false} EveryRow(c: Config, k: nat, j: nat, pos: nat)
    requires Valid(c) && c.batch >= 1 && WithinTable(c) && k >= 1
    ensures Row(c, k, j, pos)
    decreases c.window + 1 - k
  {
    if c.window < k {
      RowBehind(c, k, j, pos);
    } else {
      LapIs(c);
      EveryRow(c, k + Lap(c), j + c.batch * Lap(c), pos + c.capacity * c.batch);
      ShiftRow(c, k, j, pos);
    }
  }

  lemma TableDecides(c: Config)
    requires Valid(c) && 1 <= c.batch <= Lap(c)
    ensures Within(c) <==> WithinTable(c)
  {
    if WithinTable(c) {
      forall k: nat, j: nat, pos: nat ensures Row(c, k, j, pos) {
        if k == 0 {
          FramesFit(c, c.batch);
          FirstFrames(c, c.batch);
        } else {
          EveryRow(c, k, j, pos);
        }
      }
    }
  }

  // MAIN RESULT.  For every setting, the bound holds in every state of every run if and only if this holds of its
  // numbers: without batches, the window has room for the whole frames of a buffer; with them, a batch does not
  // fit the buffer or the finite table has no place out of the bound.
  lemma BoundIff(c: Config)
    requires Valid(c)
    ensures BoundHolds(c) <==> if c.batch == 0 then c.window >= Lap(c) * c.frame
                               else c.batch > Lap(c) || WithinTable(c)
  {
    if c.batch == 0 {
      ZeroBatchBoundIff(c);
    } else {
      BoundByPlaces(c);
      if c.batch <= Lap(c) { TableDecides(c); }
    }
  }
}
