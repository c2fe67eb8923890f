/**
The paced append/apply harness as an interleaving of one driver thread, N state
machines and the main thread's stop flag.  The driver appends frames, publishes
durable and commit every `batch` frames, and then waits on a minimum it reads slot
by slot while the machines keep advancing.  Every step below is one atomic access.
 */
module Pacing {
  import opened Options

  datatype Config = Config(capacity: nat, frame: nat, batch: nat, window: nat, fsms: nat)

  ghost predicate Valid(c: Config) {
    0 < c.frame <= c.capacity && c.fsms >= 1
  }

  // -------------------------------------------------------------- log positions

  // A frame never wraps: when it does not fit before the end of the buffer, the rest is padding.
  function Pad(c: Config, pos: nat): nat {
    if c.capacity == 0 then 0
    else
      var toEnd := c.capacity - pos % c.capacity;
      if c.frame > toEnd then toEnd else 0
  }

  function Next(c: Config, pos: nat): nat {
    pos + Pad(c, pos) + c.frame
  }

  // The position after k frames.
  function End(c: Config, k: nat): nat {
    if k == 0 then 0 else Next(c, End(c, k - 1))
  }

  // ------------------------------------------------------------------- the state

  datatype Pc =
    | Loop                                  // about to test `stop` and append
    | StoreDurable | StoreCommit            // publishing a completed batch
    | PaceTest                              // about to test `stop` in the pacing loop
    | Scan(slot: nat, best: Option<nat>)    // reading the applied slots one by one
    | Decide(min: nat)
    | Underflow                             // the unsigned `p - min_applied` went below zero
    | FinalDurable | FinalCommit | Done

  // `scanFloor` records, for the proofs only, the true minimum when the running scan began.
  datatype State = State(
    n: nat, append: nat, durable: nat, commit: nat,
    applied: seq<nat>, frames: seq<nat>,
    stop: bool, stalls: nat, pc: Pc, scanFloor: nat)

  datatype Step = SetStop | Driver | Overrun | Skip(id: nat) | Apply(id: nat)

  function Init(c: Config): State {
    State(0, 0, 0, 0, seq(c.fsms, _ => 0), seq(c.fsms, _ => 0), false, 0, Loop, 0)
  }

  // u64::is_multiple_of: only zero is a multiple of zero.
  predicate IsMultipleOf(n: nat, batch: nat) {
    if batch == 0 then n == 0 else n % batch == 0
  }

  function Smaller(a: nat, b: nat): nat {
    if a < b then a else b
  }

  function MinOf(xs: seq<nat>): nat {
    if xs == [] then 0
    else if |xs| == 1 then xs[0]
    else Smaller(MinOf(xs[..|xs| - 1]), xs[|xs| - 1])
  }

  // The appender's hard gate: never past durable + capacity.
  predicate AppendFits(c: Config, s: State) {
    Next(c, s.append) <= s.durable + c.capacity
  }

  predicate Enabled(c: Config, s: State, step: Step) {
    match step
    case SetStop => true
    case Driver => s.pc != Done && s.pc != Underflow && (s.pc == Loop && !s.stop ==> AppendFits(c, s))
    case Overrun => s.pc == Loop && !s.stop && !AppendFits(c, s)
    case Skip(id) => id < |s.applied| && s.applied[id] < s.commit && Pad(c, s.applied[id]) > 0
    case Apply(id) => id < |s.applied| && id < |s.frames| && s.applied[id] < s.commit
  }

  function DriverStep(c: Config, s: State): State {
    match s.pc
    case Loop =>
      if s.stop then s.(pc := FinalDurable)
      else s.(append := Next(c, s.append), n := s.n + 1,
              pc := if IsMultipleOf(s.n + 1, c.batch) then StoreDurable else Loop)
    case StoreDurable => s.(durable := s.append, pc := StoreCommit)
    case StoreCommit => s.(commit := s.append, pc := PaceTest)
    case PaceTest =>
      if s.stop then s.(pc := Loop) else s.(pc := Scan(0, None), scanFloor := MinOf(s.applied))
    case Scan(slot, best) =>
      if slot >= |s.applied| then s.(pc := Decide(if best.Some? then best.value else 0))
      else
        s.(pc := Scan(slot + 1, Some(if best.Some? then Smaller(best.value, s.applied[slot]) else s.applied[slot])))
    case Decide(min) =>
      if min > s.append then s.(pc := Underflow)
      else if s.append - min > c.window then s.(stalls := s.stalls + 1, pc := PaceTest)
      else s.(pc := Loop)
    case FinalDurable => s.(durable := s.append, pc := FinalCommit)
    case FinalCommit => s.(commit := s.append, pc := Done)
    case _ => s
  }

  function Do(c: Config, s: State, step: Step): State
    requires Enabled(c, s, step)
  {
    match step
    case SetStop => s.(stop := true)
    case Driver => DriverStep(c, s)
    case Overrun => s
    // A machine's batch may end behind the padding, before the frame that follows it.
    case Skip(id) => s.(applied := s.applied[id := s.applied[id] + Pad(c, s.applied[id])])
    // A machine applies the next committed frame: it counts it and moves its slot past it.
    case Apply(id) =>
      s.(applied := s.applied[id := Next(c, s.applied[id])], frames := s.frames[id := s.frames[id] + 1])
  }

  // `run` starts in the initial state and each state follows from the one before by one enabled step.
  ghost predicate IsRun(c: Config, run: seq<State>) {
    && run != [] && run[0] == Init(c)
    && forall i | 0 <= i < |run| - 1 :: Follows(c, run[i], run[i + 1])
  }

  ghost predicate Follows(c: Config, s: State, s': State) {
    exists step :: Enabled(c, s, step) && s' == Do(c, s, step)
  }

  // ------------------------------------------------------------ position arithmetic

  lemma {:induction false} EndMonotone(c: Config, j: nat, k: nat)
    requires Valid(c) && j <= k
    ensures End(c, j) <= End(c, k) && (j < k ==> End(c, j) + c.frame <= End(c, k))
    decreases k
  {
    if j < k { EndMonotone(c, j, k - 1); }
  }

  lemma {:induction false} MinOfIs(xs: seq<nat>)
    requires xs != []
    ensures forall i | 0 <= i < |xs| :: MinOf(xs) <= xs[i]
    ensures exists i | 0 <= i < |xs| :: xs[i] == MinOf(xs)
  {
    if |xs| == 1 {
      assert xs[0] == MinOf(xs);
    } else {
      var init, last := xs[..|xs| - 1], xs[|xs| - 1];
      MinOfIs(init);
      var k :| 0 <= k < |init| && init[k] == MinOf(init);
      assert xs[k] == MinOf(init);
      assert forall i | 0 <= i < |init| :: xs[i] == init[i];
      assert MinOf(xs) == xs[k] || MinOf(xs) == xs[|xs| - 1];
    }
  }

  lemma MultipleIsFar(b: int, d: int)
    requires b > 0
    ensures d >= 1 ==> b * d >= b
    ensures d <= -1 ==> b * d <= -b
  {
  }

  lemma RemainderIs(x: int, b: int, q: int, r: int)
    requires b > 0 && x == b * q + r && 0 <= r < b
    ensures x % b == r && x / b == q
  {
    var q', r' := x / b, x % b;
    var d := q - q';
    assert b * d == b * q - b * q' == r' - r;
    MultipleIsFar(b, d);
  }

  lemma NextRemainder(n: nat, b: nat)
    requires b >= 1
    ensures (n + 1) % b == if n % b + 1 == b then 0 else n % b + 1
    ensures n % b <= n && (n > 0 && n % b == 0 ==> b <= n)
  {
    var q, r := n / b, n % b;
    if r + 1 == b {
      RemainderIs(n + 1, b, q + 1, 0);
    } else {
      RemainderIs(n + 1, b, q, r + 1);
    }
    if n > 0 && r == 0 {
      assert q >= 1;
      assert b * q >= b;
    }
  }

  // ---------------------------------------------------------------- the invariant

  // The number of published frames, recovered from the commit position's frame count.
  ghost predicate Positions(c: Config, s: State, published: nat) {
    && |s.applied| == |s.frames| == c.fsms
    && s.append == End(c, s.n) && s.commit == End(c, published) && published <= s.n
    && s.commit <= s.durable <= s.append
    && forall i | 0 <= i < c.fsms :: Swept(c, s.applied[i], s.frames[i], published)
  }

  // A slot stands behind the frames it counts, or behind the padding before the next published one.
  ghost predicate Swept(c: Config, pos: nat, frames: nat, published: nat) {
    && frames <= published
    && (pos == End(c, frames) || (frames < published && pos == End(c, frames) + Pad(c, End(c, frames))))
  }

  lemma SweptIsCommitted(c: Config, pos: nat, frames: nat, published: nat)
    requires Valid(c) && Swept(c, pos, frames, published)
    ensures pos <= End(c, published) && (pos < End(c, published) <==> frames < published)
  {
    EndMonotone(c, frames, published);
    if frames < published { EndMonotone(c, frames + 1, published); }
  }

  // Behind the padding there is no more padding.
  lemma PaddedOnce(c: Config, pos: nat)
    requires Valid(c)
    ensures Pad(c, pos + Pad(c, pos)) == 0 && Next(c, pos + Pad(c, pos)) == Next(c, pos)
  {
    var cap, q, off := c.capacity, pos / c.capacity, pos % c.capacity;
    assert pos == cap * q + off;
    if Pad(c, pos) > 0 {
      assert pos + Pad(c, pos) == cap * (q + 1) + 0 by { MulDistributes(cap, q, 1); }
      RemainderIs(pos + Pad(c, pos), cap, q + 1, 0);
    }
  }

  predicate Publishing(pc: Pc) {
    pc.StoreDurable? || pc.StoreCommit? || IsPacing(pc)
  }

  predicate IsPacing(pc: Pc) {
    pc.PaceTest? || Scanning(pc)
  }

  predicate Scanning(pc: Pc) {
    pc.Scan? || pc.Decide?
  }

  // Everything read so far, from above by the slots as they are now, from below by the floor.
  ghost predicate ScanOk(s: State) {
    && (Scanning(s.pc) ==> forall i | 0 <= i < |s.applied| :: s.scanFloor <= s.applied[i])
    && (s.pc.Scan? ==>
          && s.pc.slot <= |s.applied| && (s.pc.best.Some? <==> s.pc.slot > 0)
          && (s.pc.best.Some? ==> s.scanFloor <= s.pc.best.value)
          && forall i | 0 <= i < s.pc.slot :: s.pc.best.value <= s.applied[i])
    && (s.pc.Decide? ==>
          s.scanFloor <= s.pc.min && forall i | 0 <= i < |s.applied| :: s.pc.min <= s.applied[i])
  }

  // How many of the appended frames may lie beyond the window at this control point.
  function Beyond(c: Config, s: State): nat
    requires c.batch >= 1
  {
    if s.pc.Loop? && !s.stop then s.n % c.batch else Smaller(c.batch, s.n)
  }

  ghost predicate InWindow(c: Config, s: State)
    requires c.batch >= 1
  {
    Beyond(c, s) <= s.n && forall i | 0 <= i < |s.applied| :: End(c, s.n - Beyond(c, s)) <= s.applied[i] + c.window
  }

  ghost predicate Inv(c: Config, s: State) {
    && (exists published: nat :: Positions(c, s, published))
    && s.pc != Underflow
    && (Publishing(s.pc) ==> s.n > 0 && IsMultipleOf(s.n, c.batch))
    && (s.pc.StoreCommit? || s.pc.FinalCommit? ==> s.durable == s.append)
    && (IsPacing(s.pc) || s.pc.Done? ==> s.commit == s.append)
    && ScanOk(s)
    && (c.batch >= 1 ==> InWindow(c, s))
  }

  // -------------------------------------------------- every step keeps the invariant

  lemma InvInit(c: Config)
    requires Valid(c)
    ensures Inv(c, Init(c))
  {
    assert Positions(c, Init(c), 0);
    if c.batch >= 1 { NextRemainder(0, c.batch); }
  }

  lemma InvSetStop(c: Config, s: State)
    requires Valid(c) && Inv(c, s)
    ensures Inv(c, s.(stop := true))
  {
    var s' := s.(stop := true);
    var published: nat :| Positions(c, s, published);
    assert Positions(c, s', published);
    if c.batch >= 1 { StopWindow(c, s); }
  }

  lemma StopWindow(c: Config, s: State)
    requires Valid(c) && c.batch >= 1 && InWindow(c, s)
    ensures InWindow(c, s.(stop := true))
  {
    RemainderAtMost(s.n, c.batch);
    EndMonotone(c, s.n - Smaller(c.batch, s.n), s.n - Beyond(c, s));
  }

  lemma RemainderAtMost(n: nat, b: nat)
    requires b >= 1
    ensures n % b <= Smaller(b, n)
  {
    NextRemainder(n, b);
  }

  // One slot moves: past padding, or past the next published frame.
  lemma SkipSweeps(c: Config, pos: nat, frames: nat, published: nat)
    requires Valid(c) && Swept(c, pos, frames, published) && pos < End(c, published)
    ensures Swept(c, pos + Pad(c, pos), frames, published) && pos + Pad(c, pos) <= End(c, published)
  {
    SweptIsCommitted(c, pos, frames, published);
    PaddedOnce(c, End(c, frames));
    SweptIsCommitted(c, pos + Pad(c, pos), frames, published);
  }

  lemma ApplySweeps(c: Config, pos: nat, frames: nat, published: nat)
    requires Valid(c) && Swept(c, pos, frames, published) && pos < End(c, published)
    ensures Next(c, pos) == End(c, frames + 1) && frames + 1 <= published && Next(c, pos) <= End(c, published)
  {
    SweptIsCommitted(c, pos, frames, published);
    PaddedOnce(c, End(c, frames));
    EndMonotone(c, frames + 1, published);
  }

  lemma SlotsMove(c: Config, s: State, s': State, published: nat)
    requires Valid(c) && Inv(c, s) && Positions(c, s', published)
    requires s' == s.(applied := s'.applied, frames := s'.frames) && |s.applied| == |s'.applied|
    requires forall i | 0 <= i < |s.applied| :: s.applied[i] <= s'.applied[i]
    ensures Inv(c, s')
  {
  }

  lemma InvSkip(c: Config, s: State, id: nat)
    requires Valid(c) && Inv(c, s) && Enabled(c, s, Skip(id))
    ensures Inv(c, Do(c, s, Skip(id)))
  {
    var s' := Do(c, s, Skip(id));
    var published: nat :| Positions(c, s, published);
    assert Swept(c, s.applied[id], s.frames[id], published);
    SkipSweeps(c, s.applied[id], s.frames[id], published);
    SlotsMove(c, s, s', published);
  }

  // Applying a committed frame lands on a frame boundary no later than commit.
  lemma InvApply(c: Config, s: State, id: nat)
    requires Valid(c) && Inv(c, s) && Enabled(c, s, Apply(id))
    ensures Inv(c, Do(c, s, Apply(id)))
  {
    var s' := Do(c, s, Apply(id));
    var published: nat :| Positions(c, s, published);
    assert Swept(c, s.applied[id], s.frames[id], published);
    ApplySweeps(c, s.applied[id], s.frames[id], published);
    SlotsMove(c, s, s', published);
  }

  lemma AppendPositions(c: Config, s: State)
    requires Valid(c) && Inv(c, s) && s.pc.Loop? && !s.stop
    ensures exists published: nat :: Positions(c, DriverStep(c, s), published)
  {
    var published: nat :| Positions(c, s, published);
    EndMonotone(c, s.n, s.n + 1);
    assert Positions(c, DriverStep(c, s), published);
  }

  lemma AppendWindow(c: Config, s: State)
    requires Valid(c) && Inv(c, s) && s.pc.Loop? && !s.stop && c.batch >= 1
    ensures InWindow(c, DriverStep(c, s))
  {
    var s' := DriverStep(c, s);
    NextRemainder(s.n, c.batch);
    NextRemainder(s.n + 1, c.batch);
    assert s'.n - Beyond(c, s') == s.n - Beyond(c, s);
  }

  lemma InvAppend(c: Config, s: State)
    requires Valid(c) && Inv(c, s) && s.pc.Loop? && !s.stop
    ensures Inv(c, DriverStep(c, s))
  {
    AppendPositions(c, s);
    if c.batch >= 1 { AppendWindow(c, s); }
  }

  // The scan's key step: a slot read now bounds the slot from below, and from above by the floor.
  lemma InvScan(c: Config, s: State)
    requires Valid(c) && Inv(c, s) && s.pc.Scan?
    ensures Inv(c, DriverStep(c, s))
  {
    var s' := DriverStep(c, s);
    var published: nat :| Positions(c, s, published);
    assert Positions(c, s', published);
  }

  lemma InvDecide(c: Config, s: State)
    requires Valid(c) && Inv(c, s) && s.pc.Decide?
    ensures Inv(c, DriverStep(c, s))
  {
    var s' := DriverStep(c, s);
    var published: nat :| Positions(c, s, published);
    assert Positions(c, s', published);
    assert Swept(c, s.applied[0], s.frames[0], published);
    assert s.pc.min <= s.applied[0] <= s.commit by { SweptIsCommitted(c, s.applied[0], s.frames[0], published); }
    if c.batch >= 1 && s'.pc.Loop? && !s.stop {
      assert Beyond(c, s') == 0;
    }
  }

  // Steps that leave the log and the slots alone keep the window part as long as no credit is lost.
  lemma SameWindow(c: Config, s: State, s': State)
    requires c.batch >= 1 && InWindow(c, s) && s'.n == s.n && s'.applied == s.applied && Beyond(c, s') == Beyond(c, s)
    ensures InWindow(c, s')
  {
  }

  lemma InvPublish(c: Config, s: State)
    requires Valid(c) && Inv(c, s)
    requires s.pc.StoreDurable? || s.pc.StoreCommit? || s.pc.FinalDurable? || s.pc.FinalCommit?
    ensures Inv(c, DriverStep(c, s))
  {
    var s' := DriverStep(c, s);
    var published: nat :| Positions(c, s, published);
    if s.pc.StoreCommit? || s.pc.FinalCommit? {
      assert Positions(c, s', s.n);
    } else {
      assert Positions(c, s', published);
    }
    if c.batch >= 1 { SameWindow(c, s, s'); }
  }

  lemma InvTest(c: Config, s: State)
    requires Valid(c) && Inv(c, s)
    requires s.pc.PaceTest? || (s.pc.Loop? && s.stop)
    ensures Inv(c, DriverStep(c, s))
  {
    var s' := DriverStep(c, s);
    var published: nat :| Positions(c, s, published);
    assert Positions(c, s', published);
    if s.pc.PaceTest? && !s.stop { MinOfIs(s.applied); }
    if c.batch >= 1 { SameWindow(c, s, s'); }
  }

  lemma InvStep(c: Config, s: State, step: Step)
    requires Valid(c) && Inv(c, s) && Enabled(c, s, step)
    ensures Inv(c, Do(c, s, step))
  {
    match step
    case SetStop => InvSetStop(c, s);
    case Overrun =>
    case Skip(id) => InvSkip(c, s, id);
    case Apply(id) => InvApply(c, s, id);
    case Driver =>
      if s.pc.Loop? && !s.stop {
        InvAppend(c, s);
      } else if s.pc.Scan? {
        InvScan(c, s);
      } else if s.pc.Decide? {
        InvDecide(c, s);
      } else if s.pc.PaceTest? || s.pc.Loop? {
        InvTest(c, s);
      } else {
        InvPublish(c, s);
      }
  }

  lemma {:induction false} InvRun(c: Config, run: seq<State>, i: nat)
    requires Valid(c) && IsRun(c, run) && i < |run|
    ensures Inv(c, run[i])
  {
    if i == 0 {
      InvInit(c);
    } else {
      InvRun(c, run, i - 1);
      assert Follows(c, run[i - 1], run[i - 1 + 1]);
      var step :| Enabled(c, run[i - 1], step) && run[i] == Do(c, run[i - 1], step);
      InvStep(c, run[i - 1], step);
    }
  }

  // ------------------------------------------------------------------ pacing safety

  // The bytes of the last batch of frames, padding included.
  function BatchBytes(c: Config, n: nat): nat
    requires Valid(c) && c.batch >= 1
  {
    EndMonotone(c, n - Smaller(c.batch, n), n);
    End(c, n) - End(c, n - Smaller(c.batch, n))
  }

  lemma OrderedPositions(c: Config, s: State, published: nat)
    requires Valid(c) && Positions(c, s, published)
    ensures MinOf(s.applied) <= s.commit <= s.durable <= s.append
  {
    MinOfIs(s.applied);
    assert Swept(c, s.applied[0], s.frames[0], published);
    SweptIsCommitted(c, s.applied[0], s.frames[0], published);
  }

  lemma PacedWindow(c: Config, s: State, published: nat)
    requires Valid(c) && Positions(c, s, published) && c.batch >= 1 && InWindow(c, s)
    ensures s.append <= MinOf(s.applied) + c.window + BatchBytes(c, s.n)
  {
    MinOfIs(s.applied);
    var k :| 0 <= k < |s.applied| && s.applied[k] == MinOf(s.applied);
    PacedFrom(c, s, k);
  }

  lemma PacedFrom(c: Config, s: State, k: nat)
    requires Valid(c) && s.append == End(c, s.n) && c.batch >= 1 && InWindow(c, s) && k < |s.applied|
    ensures s.append <= s.applied[k] + c.window + BatchBytes(c, s.n)
  {
    RemainderAtMost(s.n, c.batch);
    EndMonotone(c, s.n - Smaller(c.batch, s.n), s.n - Beyond(c, s));
  }

  // MAIN RESULT.  In every interleaving, the append position never runs more than the window plus one
  // batch of frames ahead of the slowest machine, no machine passes commit or append, and the unsigned
  // subtraction of the pacing loop never underflows.
  lemma PacingSafety(c: Config, run: seq<State>, i: nat)
    requires Valid(c) && IsRun(c, run) && i < |run|
    ensures var s := run[i];
            && s.pc != Underflow
            && MinOf(s.applied) <= s.commit <= s.durable <= s.append
            && (c.batch >= 1 ==> s.append <= MinOf(s.applied) + c.window + BatchBytes(c, s.n))
  {
    InvRun(c, run, i);
    var published: nat :| Positions(c, run[i], published);
    OrderedPositions(c, run[i], published);
    if c.batch >= 1 { PacedWindow(c, run[i], published); }
  }

  // The minimum the driver decides on lies between the true minimum when its scan began and the true
  // minimum when the scan ended, although the slots were read one by one while machines advanced.
  lemma ScannedMinimumIsBracketed(c: Config, run: seq<State>, i: nat)
    requires Valid(c) && IsRun(c, run) && i < |run| && run[i].pc.Decide?
    ensures run[i].scanFloor <= run[i].pc.min <= MinOf(run[i].applied)
  {
    InvRun(c, run, i);
    MinOfIs(run[i].applied);
  }

  // The floor really is the minimum at the scan's start, and stays fixed until the scan decides.
  lemma FloorIsMinimumAtStart(c: Config, s: State, step: Step)
    requires Enabled(c, s, step) && Scanning(Do(c, s, step).pc)
    ensures if Scanning(s.pc) then Do(c, s, step).scanFloor == s.scanFloor
            else step == Driver && Do(c, s, step).scanFloor == MinOf(s.applied)
  {
  }

  // --------------------------------------------------- frames that tile the buffer

  ghost predicate Tiles(c: Config) {
    Valid(c) && c.capacity % c.frame == 0
  }

  lemma MulDistributes(f: int, x: int, y: int)
    ensures f * (x + y) == f * x + f * y
    ensures f * (x - y) == f * x - f * y
  {
  }

  // When whole frames fill the buffer exactly, no frame boundary is ever followed by padding.
  lemma NoPadding(c: Config, a: nat)
    requires Tiles(c)
    ensures Pad(c, a * c.frame) == 0
  {
    var f, m := c.frame, c.capacity / c.frame;
    assert c.capacity == f * m;
    assert m >= 1 by { MultipleIsFar(f, m); }
    var q, r := a / m, a % m;
    assert a * f == c.capacity * q + f * r by {
      assert a == m * q + r;
      MulDistributes(f, m * q, r);
      assert f * (m * q) == (f * m) * q;
    }
    assert 0 <= f * r && f * (m - r) >= f by { MultipleIsFar(f, m - r); }
    MulDistributes(f, m, r);
    RemainderIs(a * f, c.capacity, q, f * r);
  }

  lemma {:induction false} TiledEnd(c: Config, k: nat)
    requires Tiles(c)
    ensures End(c, k) == k * c.frame
  {
    if k > 0 {
      TiledEnd(c, k - 1);
      NoPadding(c, k - 1);
    }
  }

  lemma FramesApart(n: nat, b: nat, batch: nat, f: nat)
    requires b <= n && b <= batch
    ensures n * f - (n - b) * f <= batch * f
  {
    assert (batch - b) * f >= 0;
  }

  lemma TiledBatch(c: Config, n: nat)
    requires Tiles(c) && c.batch >= 1
    ensures BatchBytes(c, n) <= c.batch * c.frame
  {
    var b := Smaller(c.batch, n);
    TiledEnd(c, n);
    TiledEnd(c, n - b);
    FramesApart(n, b, c.batch, c.frame);
  }

  lemma TiledCount(c: Config, frames: nat, pos: nat, published: nat)
    requires Tiles(c) && Swept(c, pos, frames, published)
    ensures pos == frames * c.frame && pos / c.frame == frames
  {
    TiledEnd(c, frames);
    NoPadding(c, frames);
    RemainderIs(pos, c.frame, frames, 0);
  }

  // With tiling frames: the bound is the window plus batch * frame bytes, and every machine's own
  // frame count times the frame size is exactly its applied position.
  lemma TiledAccounting(c: Config, run: seq<State>, i: nat)
    requires Tiles(c) && IsRun(c, run) && i < |run|
    ensures var s := run[i];
            && |s.applied| == |s.frames| == c.fsms
            && s.append == s.n * c.frame
            && (forall k | 0 <= k < c.fsms ::
                  s.applied[k] == s.frames[k] * c.frame && s.applied[k] / c.frame == s.frames[k])
            && (c.batch >= 1 ==> s.append <= MinOf(s.applied) + c.window + c.batch * c.frame)
  {
    var s := run[i];
    InvRun(c, run, i);
    var published: nat :| Positions(c, s, published);
    TiledEnd(c, s.n);
    forall k | 0 <= k < c.fsms
      ensures s.applied[k] == s.frames[k] * c.frame && s.applied[k] / c.frame == s.frames[k]
    {
      assert Swept(c, s.applied[k], s.frames[k], published);
      TiledCount(c, s.frames[k], s.applied[k], published);
    }
    if c.batch >= 1 {
      PacingSafety(c, run, i);
      TiledBatch(c, s.n);
    }
  }

  // ------------------------------------------------------------- the reported stalls

  // From state s the driver leaves a decision whose minimum lies further behind than the window.
  predicate FindsTooFar(c: Config, s: State, s': State) {
    s.pc.Decide? && s'.pc != s.pc && s.pc.min + c.window < s.append
  }

  function TooFarCount(c: Config, run: seq<State>, i: nat): nat
    requires i < |run|
  {
    if i == 0 then 0 else TooFarCount(c, run, i - 1) + if FindsTooFar(c, run[i - 1], run[i]) then 1 else 0
  }

  lemma StallStep(c: Config, s: State, step: Step)
    requires Enabled(c, s, step)
    ensures Do(c, s, step).stalls == s.stalls + if FindsTooFar(c, s, Do(c, s, step)) then 1 else 0
    ensures s.pc.Decide? && Do(c, s, step).pc.Loop? ==> s.append <= s.pc.min + c.window
  {
  }

  // The stalls the harness reports are, in every run, the decisions that found the slowest machine too far behind.
  lemma {:induction false} StallsCountWaits(c: Config, run: seq<State>, i: nat)
    requires IsRun(c, run) && i < |run|
    ensures run[i].stalls == TooFarCount(c, run, i)
  {
    if i > 0 {
      StallsCountWaits(c, run, i - 1);
      assert Follows(c, run[i - 1], run[i - 1 + 1]);
      var step :| Enabled(c, run[i - 1], step) && run[i] == Do(c, run[i - 1], step);
      StallStep(c, run[i - 1], step);
    }
  }

  // The driver leaves its loop only once it has been stopped, and ends only with the second of its final stores.
  predicate Finishing(pc: Pc) {
    pc.FinalDurable? || pc.FinalCommit? || pc.Done?
  }

  lemma FinishStep(c: Config, s: State, step: Step)
    requires Enabled(c, s, step)
    ensures var t := Do(c, s, step);
            && (t.pc.Done? && !s.pc.Done? ==> s.pc.FinalCommit?)
            && (Finishing(t.pc) && !Finishing(s.pc) ==> s.pc.Loop? && s.stop && t.pc.FinalDurable?)
            && (s.stop ==> t.stop)
  {
  }

  lemma {:induction false} FinishesStopped(c: Config, run: seq<State>, i: nat)
    requires IsRun(c, run) && i < |run|
    ensures Finishing(run[i].pc) ==> run[i].stop
  {
    if i > 0 {
      FinishesStopped(c, run, i - 1);
      assert Follows(c, run[i - 1], run[i - 1 + 1]);
      var step :| Enabled(c, run[i - 1], step) && run[i] == Do(c, run[i - 1], step);
      FinishStep(c, run[i - 1], step);
    }
  }
}
