/**
The longest commit stall seen during a node restart: a one-pass detector with a
high-water mark, and the quantified statement about the whole history it computes.
 */
module CommitStall {

  // One scrape: seconds since the sampler started, and the commit position seen.
  datatype Sample = Sample(t: real, p: int)

  // An interval in seconds, or unbounded when nothing was sampled at all.
  datatype Gap = Secs(v: real) | Unbounded

  const GAP_BAR: real := 5.0
  const TARGET_LEVEL: int := 13

  // ------------------------------------------------------------- the detector

  function Max(a: real, b: real): real {
    if a < b then b else a
  }

  // The detector's running state: the longest stall, since when, and the high-water mark.
  datatype Mark = Mark(best: real, since: real, high: int)

  function Step(m: Mark, s: Sample): Mark {
    var best := Max(m.best, s.t - m.since);
    if s.p > m.high then Mark(best, s.t, s.p) else Mark(best, m.since, m.high)
  }

  function Run(s: seq<Sample>): Mark
    requires s != []
  {
    if |s| == 1 then Mark(0.0, s[0].t, s[0].p) else Step(Run(s[..|s| - 1]), s[|s| - 1])
  }

  function Stall(s: seq<Sample>): Gap {
    if s == [] then Unbounded else Secs(Run(s).best)
  }

  method LongestStall(samples: seq<Sample>) returns (r: Gap)
    ensures r == Stall(samples)
  {
    if samples == [] {
      return Unbounded;
    }
    var best, since, high := 0.0, samples[0].t, samples[0].p;
    assert samples[..1] == [samples[0]];
    for i := 1 to |samples|
      invariant Run(samples[..i]) == Mark(best, since, high)
    {
      var Sample(t, p) := samples[i];
      assert samples[..i + 1][..i] == samples[..i];
      best := Max(best, t - since);
      if p > high {
        since, high := t, p;
      }
    }
    assert samples[..|samples|] == samples;
    r := Secs(best);
  }

  // --------------------------------------------------------- what a stall is

  // The highest position seen up to and including sample i.
  function High(s: seq<Sample>, i: nat): int
    requires i < |s|
  {
    if i == 0 || s[i].p > High(s, i - 1) then s[i].p else High(s, i - 1)
  }

  ghost predicate TimeOrdered(s: seq<Sample>) {
    forall i, j | 0 <= i < j < |s| :: s[i].t <= s[j].t
  }

  // Nothing strictly between samples i and j rose above what had been seen by i.
  ghost predicate NoRise(s: seq<Sample>, i: nat, j: nat) {
    i <= j < |s| && forall k | i < k < j :: s[k].p <= High(s, i)
  }

  ghost predicate IsLongest(s: seq<Sample>, v: real) {
    && (forall i: nat, j: nat | NoRise(s, i, j) :: s[j].t - s[i].t <= v)
    && (exists i: nat, j: nat | NoRise(s, i, j) :: s[j].t - s[i].t == v)
  }

  lemma {:induction false} HighOfPrefix(s: seq<Sample>, n: nat, i: nat)
    requires i < n <= |s|
    ensures High(s[..n], i) == High(s, i)
  {
    if i > 0 { HighOfPrefix(s, n, i - 1); }
  }

  lemma {:induction false} HighMonotone(s: seq<Sample>, i: nat, j: nat)
    requires i <= j < |s|
    ensures High(s, i) <= High(s, j) && s[i].p <= High(s, j)
    decreases j
  {
    if i < j { HighMonotone(s, i, j - 1); }
  }

  // The mark is where the high-water mark was first reached.
  lemma {:induction false} MarkIs(s: seq<Sample>) returns (i: nat)
    requires s != []
    ensures i < |s| && Run(s).since == s[i].t && Run(s).high == s[i].p == High(s, |s| - 1) == High(s, i)
    ensures i > 0 ==> s[i].p > High(s, i - 1)
    ensures forall k | i <= k < |s| :: s[k].p <= s[i].p
  {
    var last := |s| - 1;
    if last == 0 {
      i := 0;
    } else {
      i := MarkIs(s[..last]);
      HighOfPrefix(s, last, last - 1);
      HighOfPrefix(s, last, i);
      if i > 0 { HighOfPrefix(s, last, i - 1); }
      assert forall k | 0 <= k < last :: s[..last][k] == s[k];
      if s[last].p > s[i].p { i := last; }
    }
  }

  // A stall that ends at sample j cannot start before the mark in force when j was read.
  lemma StallStartsAtMark(s: seq<Sample>, m: nat, i: nat, j: nat)
    requires m < j && m < |s| && NoRise(s, i, j) && (m > 0 ==> s[m].p > High(s, m - 1))
    ensures i >= m
  {
    if i < m { HighMonotone(s, i, m - 1); }
  }

  lemma NoRiseOfPrefix(s: seq<Sample>, n: nat, i: nat, j: nat)
    requires i <= j < n <= |s|
    ensures NoRise(s[..n], i, j) <==> NoRise(s, i, j)
  {
    HighOfPrefix(s, n, i);
    assert forall k | 0 <= k < n :: s[..n][k] == s[k];
  }

  lemma MarkOfPrefix(s: seq<Sample>, n: nat, m: nat)
    requires m < n <= |s| && (m > 0 ==> s[..n][m].p > High(s[..n], m - 1)) && s[..n][m].p == High(s[..n], m)
    requires forall k | m <= k < n :: s[..n][k].p <= s[..n][m].p
    ensures (m > 0 ==> s[m].p > High(s, m - 1)) && s[m].p == High(s, m)
    ensures forall k | m <= k < n :: s[k].p <= s[m].p
  {
    HighOfPrefix(s, n, m);
    if m > 0 { HighOfPrefix(s, n, m - 1); }
    assert forall k | 0 <= k < n :: s[..n][k] == s[k];
  }

  // `m` is the sample that set the high-water mark of s, which is still in force at its end.
  ghost predicate IsMark(s: seq<Sample>, n: nat, m: nat) {
    && m < n <= |s| && s[m].p == High(s, m) && (m > 0 ==> s[m].p > High(s, m - 1))
    && forall k | m <= k < n :: s[k].p <= s[m].p
  }

  lemma NothingLonger(s: seq<Sample>, m: nat, i: nat, j: nat)
    requires |s| > 1 && TimeOrdered(s) && IsMark(s, |s| - 1, m) && NoRise(s, i, j)
    requires IsLongest(s[..|s| - 1], Run(s[..|s| - 1]).best) && Run(s[..|s| - 1]).since == s[m].t
    ensures s[j].t - s[i].t <= Run(s).best
  {
    var last := |s| - 1;
    if j < last {
      NoRiseOfPrefix(s, last, i, j);
      assert s[..last][j] == s[j] && s[..last][i] == s[i];
    } else {
      StallStartsAtMark(s, m, i, j);
    }
  }

  lemma LongestIsReached(s: seq<Sample>, m: nat) returns (i: nat, j: nat)
    requires |s| > 1 && IsMark(s, |s| - 1, m)
    requires IsLongest(s[..|s| - 1], Run(s[..|s| - 1]).best) && Run(s[..|s| - 1]).since == s[m].t
    ensures NoRise(s, i, j) && s[j].t - s[i].t == Run(s).best
  {
    var last := |s| - 1;
    if Run(s).best == Run(s[..last]).best {
      i, j :| NoRise(s[..last], i, j) && s[..last][j].t - s[..last][i].t == Run(s).best;
      NoRiseOfPrefix(s, last, i, j);
    } else {
      i, j := m, last;
    }
  }

  // MAIN RESULT.  On every non-empty, time-ordered history the one-pass detector returns the
  // maximum of t[j] - t[i] over all i <= j with no rise above the high-water mark of i in between.
  lemma {:induction false} StallIsLongest(s: seq<Sample>)
    requires s != [] && TimeOrdered(s)
    ensures IsLongest(s, Run(s).best)
  {
    var last := |s| - 1;
    if last == 0 {
      assert NoRise(s, 0, 0);
    } else {
      StallIsLongest(s[..last]);
      var m := MarkIs(s[..last]);
      MarkOfPrefix(s, last, m);
      assert IsMark(s, last, m);
      forall i: nat, j: nat | NoRise(s, i, j) ensures s[j].t - s[i].t <= Run(s).best {
        NothingLonger(s, m, i, j);
      }
      var i, j := LongestIsReached(s, m);
      assert NoRise(s, i, j);
    }
  }

  // ------------------------------------------------------------ dips are inert

  // Every position replaced by the highest seen so far.
  function RunningMax(s: seq<Sample>): seq<Sample> {
    seq(|s|, i requires 0 <= i < |s| => Sample(s[i].t, High(s, i)))
  }

  lemma {:induction false} RunningMaxSameRun(s: seq<Sample>)
    requires s != []
    ensures Run(RunningMax(s)) == Run(s)
  {
    var last := |s| - 1;
    if last > 0 {
      RunningMaxSameRun(s[..last]);
      assert RunningMax(s)[..last] == RunningMax(s[..last]) by {
        forall i | 0 <= i < last ensures High(s[..last], i) == High(s, i) { HighOfPrefix(s, last, i); }
      }
      var m := MarkIs(s[..last]);
      HighOfPrefix(s, last, last - 1);
    }
  }

  lemma RunningMaxIsInert(s: seq<Sample>)
    ensures Stall(RunningMax(s)) == Stall(s)
  {
    if s != [] { RunningMaxSameRun(s); }
  }

  lemma {:induction false} RunExtends(a: seq<Sample>, b: seq<Sample>, c: seq<Sample>)
    requires a != [] && b != [] && Run(a) == Run(b)
    ensures Run(a + c) == Run(b + c)
    decreases |c|
  {
    if c == [] {
      assert a + c == a && b + c == b;
    } else {
      var init, x := c[..|c| - 1], c[|c| - 1];
      RunExtends(a, b, init);
      assert (a + c)[..|a + c| - 1] == a + init && (b + c)[..|b + c| - 1] == b + init;
    }
  }

  lemma DipStep(a: seq<Sample>, x: Sample, y: Sample)
    requires a != [] && x.t <= y.t && x.p <= Run(a).high
    ensures Run(a + [x, y]) == Run(a + [y])
  {
    RunSnoc(a, x);
    RunSnoc(a, y);
    RunSnoc(a + [x], y);
    assert a + [x] + [y] == a + [x, y];
    StepOverDip(Run(a), x, y);
  }

  lemma RunSnoc(a: seq<Sample>, x: Sample)
    requires a != []
    ensures Run(a + [x]) == Step(Run(a), x)
  {
    assert (a + [x])[..|a|] == a;
  }

  lemma StepOverDip(m: Mark, x: Sample, y: Sample)
    requires x.t <= y.t && x.p <= m.high
    ensures Step(Step(m, x), y) == Step(m, y)
  {
  }

  lemma HighIsRun(a: seq<Sample>)
    requires a != []
    ensures Run(a).high == High(a, |a| - 1)
  {
    var m := MarkIs(a);
  }

  // Inserting (or deleting) an interior sample that sets no new high changes nothing.
  lemma DipIsInert(before: seq<Sample>, x: Sample, y: Sample, after: seq<Sample>)
    requires before != [] && x.t <= y.t && x.p <= High(before, |before| - 1)
    ensures Stall(before + [x, y] + after) == Stall(before + [y] + after)
  {
    HighIsRun(before);
    DipStep(before, x, y);
    RunExtends(before + [x, y], before + [y], after);
  }

  // ----------------------------------------------------------------- the verdict

  function MaxGap(gaps: seq<Gap>): Gap {
    if gaps == [] then Secs(0.0)
    else if |gaps| == 1 then gaps[0]
    else
      var rest := MaxGap(gaps[1..]);
      if gaps[0].Unbounded? || (rest.Secs? && rest.v < gaps[0].v) then gaps[0] else rest
  }

  datatype Clauses = Clauses(level: bool, gaps: bool, agreement: bool)

  // Every node at the target level, no restart stalled past the bar, and the state machines agree.
  function VerdictRowRoll(levels: map<nat, int>, gaps: seq<Gap>, agreement: bool): (bool, Clauses) {
    var worst := MaxGap(gaps);
    var c := Clauses(forall n | n in levels :: levels[n] == TARGET_LEVEL, worst.Secs? && worst.v <= GAP_BAR, agreement);
    (c.level && c.gaps && c.agreement, c)
  }

  lemma {:induction false} GapClauseIs(gaps: seq<Gap>)
    ensures var worst := MaxGap(gaps);
            worst.Secs? && worst.v <= GAP_BAR <==> forall i | 0 <= i < |gaps| :: gaps[i].Secs? && gaps[i].v <= GAP_BAR
  {
    if |gaps| > 1 {
      GapClauseIs(gaps[1..]);
      assert forall i | 0 < i < |gaps| :: gaps[i] == gaps[1..][i - 1];
    }
  }

  function GapsOf(restarts: seq<seq<Sample>>): seq<Gap> {
    seq(|restarts|, i requires 0 <= i < |restarts| => Stall(restarts[i]))
  }

  // In this history, any two samples more than the bar apart have a rise above the earlier mark between them.
  ghost predicate KeepsMoving(s: seq<Sample>) {
    forall i, j | 0 <= i < j < |s| && s[j].t - s[i].t > GAP_BAR :: exists k | i < k < j :: s[k].p > High(s, i)
  }

  lemma KeepsMovingIff(s: seq<Sample>)
    requires TimeOrdered(s)
    ensures Stall(s).Secs? && Stall(s).v <= GAP_BAR <==> s != [] && KeepsMoving(s)
  {
    if s != [] {
      StallIsLongest(s);
      LongestDecides(s, Run(s).best);
    }
  }

  lemma LongestDecides(s: seq<Sample>, best: real)
    requires IsLongest(s, best)
    ensures best <= GAP_BAR <==> KeepsMoving(s)
  {
    if best <= GAP_BAR {
      forall i, j | 0 <= i < j < |s| && s[j].t - s[i].t > GAP_BAR
        ensures exists k | i < k < j :: s[k].p > High(s, i)
      {
        assert !NoRise(s, i, j);
      }
    } else {
      var i: nat, j: nat :| NoRise(s, i, j) && s[j].t - s[i].t == best;
      assert i < j && !exists k | i < k < j :: s[k].p > High(s, i);
    }
  }

  // MAIN RESULT.  The gap clause holds exactly when every restart was observed and, in each of them,
  // commit rose above its mark within every stretch longer than the bar.
  lemma GapsPassMeansMovement(levels: map<nat, int>, restarts: seq<seq<Sample>>, agreement: bool)
    requires forall i | 0 <= i < |restarts| :: TimeOrdered(restarts[i])
    ensures VerdictRowRoll(levels, GapsOf(restarts), agreement).1.gaps
            <==> forall i | 0 <= i < |restarts| :: restarts[i] != [] && KeepsMoving(restarts[i])
  {
    var gaps := GapsOf(restarts);
    GapClauseIs(gaps);
    forall i | 0 <= i < |restarts|
      ensures gaps[i].Secs? && gaps[i].v <= GAP_BAR <==> restarts[i] != [] && KeepsMoving(restarts[i])
    {
      KeepsMovingIff(restarts[i]);
    }
  }

  // MAIN RESULT.  The roll passes if and only if every node ended at the target level, every restart was observed with
  // commit moving within every stretch longer than the bar, and the state machines agree.
  lemma RollPassesIff(levels: map<nat, int>, restarts: seq<seq<Sample>>, agreement: bool)
    requires forall i | 0 <= i < |restarts| :: TimeOrdered(restarts[i])
    ensures VerdictRowRoll(levels, GapsOf(restarts), agreement).0
            <==> && (forall n | n in levels :: levels[n] == 13) && agreement
                 && forall i | 0 <= i < |restarts| :: restarts[i] != [] && KeepsMoving(restarts[i])
  {
    GapsPassMeansMovement(levels, restarts, agreement);
  }
}
