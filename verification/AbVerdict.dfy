/**
The paired A/B rule: per-arm statistics over interleaved repetitions, and the
reading that judges every arm against one resolution.  Rates are exact reals; a
standard error is represented by its square, so that no square root is taken.
 */
module AbVerdict {
  import opened Options

  // One arm's rates, one per repetition; an absent side is an empty list.
  datatype Sides = Sides(base: seq<real>, head: seq<real>)

  datatype SideStats = SideStats(n: nat, mean: real)

  // Per-repetition deltas in percent: how many, their mean, and the squared standard error of that mean.
  datatype Paired = Paired(n: nat, delta: real, semSq: Option<real>)

  datatype Row = Row(base: Option<SideStats>, head: Option<SideStats>, delta: Option<real>, paired: Option<Paired>)

  datatype Reading =
    | NoArms | MissingArm(arm: string) | TooFewReps(arm: string, side: string) | TooFewPaired(arm: string)
    | NoResolution | NoisyRun | WithinResolution | OutsideResolution

  datatype Verdict = Verdict(reading: Reading, worstDelta: Option<real>, worstSemSq: Option<real>)

  // ----------------------------------------------------------------- statistics

  function Sum(xs: seq<real>): real {
    if xs == [] then 0.0 else xs[0] + Sum(xs[1..])
  }

  function Mean(xs: seq<real>): real
    requires xs != []
  {
    Sum(xs) / |xs| as real
  }

  function SquaresAround(xs: seq<real>, m: real): real {
    if xs == [] then 0.0 else (xs[0] - m) * (xs[0] - m) + SquaresAround(xs[1..], m)
  }

  // Sample variance over n, the square of the standard error of the mean.
  function SemSq(xs: seq<real>): real
    requires |xs| >= 2
  {
    SquaresAround(xs, Mean(xs)) / (|xs| - 1) as real / |xs| as real
  }

  // A zero rate is a repetition without a reading.
  function NonZero(xs: seq<real>): seq<real> {
    if xs == [] then [] else (if xs[0] != 0.0 then [xs[0]] else []) + NonZero(xs[1..])
  }

  // Head relative to base, in percent.
  function Delta(x: real, y: real): real
    requires x != 0.0
  {
    100.0 * (y - x) / x
  }

  function Deltas(b: seq<real>, h: seq<real>): seq<real> {
    if b == [] || h == [] then []
    else (if b[0] != 0.0 && h[0] != 0.0 then [Delta(b[0], h[0])] else []) + Deltas(b[1..], h[1..])
  }

  function SideOf(rates: seq<real>): Option<SideStats> {
    var xs := NonZero(rates);
    if xs == [] then None else Some(SideStats(|xs|, Mean(xs)))
  }

  function PairedOf(b: seq<real>, h: seq<real>): Option<Paired> {
    var ds := Deltas(b, h);
    if ds == [] then None else Some(Paired(|ds|, Mean(ds), if |ds| > 1 then Some(SemSq(ds)) else None))
  }

  function RowOf(s: Sides): Row {
    var base, head := SideOf(s.base), SideOf(s.head);
    Row(base, head,
        if base.Some? && head.Some? && base.value.mean != 0.0
        then Some(Delta(base.value.mean, head.value.mean)) else None,
        PairedOf(s.base, s.head))
  }

  function StatsSpec(arms: seq<(string, Sides)>): seq<(string, Row)> {
    seq(|arms|, i requires 0 <= i < |arms| => (arms[i].0, RowOf(arms[i].1)))
  }

  // The arms in label order, each reduced to its row.
  method AbStats(arms: seq<(string, Sides)>) returns (out: seq<(string, Row)>)
    ensures out == StatsSpec(arms)
  {
    out := [];
    for i := 0 to |arms|
      invariant |out| == i && forall j | 0 <= j < i :: out[j] == (arms[j].0, RowOf(arms[j].1))
    {
      out := out + [(arms[i].0, RowOf(arms[i].1))];
    }
  }

  // ------------------------------------------------------- what the statistics mean

  // A head rate is the base rate changed by its delta, and by no other percentage.
  lemma DeltaMeans(x: real, y: real, d: real)
    requires x != 0.0
    ensures y == x * (1.0 + d / 100.0) <==> d == Delta(x, y)
  {
    var e := Delta(x, y);
    assert e * x == 100.0 * (y - x);
    assert x * (1.0 + d / 100.0) == x + d * x / 100.0;
    if d * x == e * x { assert (d - e) * x == 0.0; }
  }

  // Every repetition is judged by itself: a pair of readings gives its delta, a pair with a missing one gives
  // nothing, and what follows is not touched.
  lemma DeltasByRepetition(x: real, y: real, b: seq<real>, h: seq<real>)
    ensures Deltas([x] + b, [y] + h) == (if x == 0.0 || y == 0.0 then [] else [Delta(x, y)]) + Deltas(b, h)
    ensures Deltas(b, []) == Deltas([], h) == []
  {
    assert ([x] + b)[1..] == b && ([y] + h)[1..] == h;
  }

  // The excess of the numbers over m.
  function Excess(xs: seq<real>, m: real): real {
    if xs == [] then 0.0 else xs[0] - m + Excess(xs[1..], m)
  }

  lemma {:induction false} ExcessIs(xs: seq<real>, m: real)
    ensures Excess(xs, m) == Sum(xs) - |xs| as real * m
  {
    if xs != [] { ExcessIs(xs[1..], m); }
  }

  // The mean is the one number the others balance around.
  lemma MeanBalances(xs: seq<real>, m: real)
    requires xs != []
    ensures Excess(xs, m) == 0.0 <==> m == Mean(xs)
  {
    ExcessIs(xs, m);
    var n := |xs| as real;
    assert n * Mean(xs) == Sum(xs);
    if n * m == Sum(xs) { assert n * (m - Mean(xs)) == 0.0; }
  }

  // The squared distances of x to the numbers, and of all the numbers to one another.
  function Distances(x: real, xs: seq<real>): real {
    if xs == [] then 0.0 else Square(x - xs[0]) + Distances(x, xs[1..])
  }

  function PairwiseDistances(xs: seq<real>): real {
    if xs == [] then 0.0 else Distances(xs[0], xs[1..]) + PairwiseDistances(xs[1..])
  }

  function SumSquares(xs: seq<real>): real {
    if xs == [] then 0.0 else Square(xs[0]) + SumSquares(xs[1..])
  }

  // The squares of n numbers around m, from the sum of their squares and their sum.
  function Around(n: real, q: real, s: real, m: real): real {
    q - 2.0 * (m * s) + n * Square(m)
  }

  lemma AroundStep(n: real, q: real, s: real, m: real, x: real)
    ensures Around(n + 1.0, Square(x) + q, x + s, m) == Square(x - m) + Around(n, q, s, m)
  {
    assert (n + 1.0) * Square(m) == n * Square(m) + Square(m);
    assert m * (x + s) == m * x + m * s;
    assert Square(x - m) == Square(x) - 2.0 * (m * x) + Square(m);
  }

  lemma {:induction false} AroundIs(xs: seq<real>, m: real)
    ensures SquaresAround(xs, m) == Distances(m, xs) == Around(|xs| as real, SumSquares(xs), Sum(xs), m)
  {
    if xs != [] {
      var rest := xs[1..];
      AroundIs(rest, m);
      AroundStep(|rest| as real, SumSquares(rest), Sum(rest), m, xs[0]);
      assert Square(m - xs[0]) == Square(xs[0] - m);
    }
  }

  function Spread(n: real, q: real, s: real): real {
    n * q - Square(s)
  }

  lemma PairwiseStep(n: real, q: real, s: real, x: real)
    ensures Spread(n + 1.0, Square(x) + q, x + s) == Around(n, q, s, x) + Spread(n, q, s)
  {
    assert (n + 1.0) * (Square(x) + q) == n * Square(x) + n * q + Square(x) + q;
    assert Square(x + s) == Square(x) + 2.0 * (x * s) + Square(s);
  }

  lemma {:induction false} PairwiseIs(xs: seq<real>)
    ensures PairwiseDistances(xs) == Spread(|xs| as real, SumSquares(xs), Sum(xs))
  {
    if xs != [] {
      var rest := xs[1..];
      PairwiseIs(rest);
      AroundIs(rest, xs[0]);
      PairwiseStep(|rest| as real, SumSquares(rest), Sum(rest), xs[0]);
      assert |xs| as real == |rest| as real + 1.0;
    }
  }

  lemma AroundMean(n: real, q: real, s: real, m: real, spread: real, around: real)
    requires n != 0.0 && m == s / n && spread == Spread(n, q, s) && around == Around(n, q, s, m)
    ensures spread == Times(n, around)
  {
    QuotientTimes(s, n);
    assert n * (m * s) == (n * m) * s;
    assert n * (n * Square(m)) == (n * m) * (n * m);
    assert n * Around(n, q, s, m) == n * q - 2.0 * (n * (m * s)) + n * (n * Square(m));
  }

  // MAIN RESULT.  The squared standard error measures how far the numbers lie from one another: the squared
  // distances of all pairs add up to n * n * (n - 1) times it.
  lemma SemSqIsPairwise(xs: seq<real>)
    requires |xs| >= 2
    ensures var n := |xs| as real; PairwiseDistances(xs) == Times(n, Times(n, Times((|xs| - 1) as real, SemSq(xs))))
  {
    PairwiseAroundMean(xs);
    ShareOut(PairwiseDistances(xs), SquaresAround(xs, Mean(xs)), |xs| as real, (|xs| - 1) as real, SemSq(xs));
  }

  lemma PairwiseAroundMean(xs: seq<real>)
    requires xs != []
    ensures PairwiseDistances(xs) == Times(|xs| as real, SquaresAround(xs, Mean(xs)))
  {
    PairwiseIs(xs);
    AroundIs(xs, Mean(xs));
    AroundMean(|xs| as real, SumSquares(xs), Sum(xs), Mean(xs), PairwiseDistances(xs), SquaresAround(xs, Mean(xs)));
  }

  function Times(x: real, y: real): real {
    x * y
  }

  lemma QuotientTimes(s: real, n: real)
    requires n != 0.0
    ensures n * (s / n) == s
  {
  }

  lemma ShareOut(spread: real, a: real, n: real, k: real, c: real)
    requires n != 0.0 && k != 0.0 && spread == Times(n, a) && c == a / k / n
    ensures spread == Times(n, Times(n, Times(k, c)))
  {
    var b := a / k;
    QuotientTimes(a, k);
    QuotientTimes(b, n);
    assert n * (n * (k * c)) == n * (k * (n * c));
  }

  // ---------------------------------------------------------------- the reading

  function Abs(x: real): real {
    if x < 0.0 then -x else x
  }

  function Square(x: real): real {
    x * x
  }

  // What disqualifies a row from being judged, if anything.
  function Unjudgeable(arm: string, row: Row): Option<Reading> {
    if row.base.None? || row.head.None? || row.delta.None? then Some(MissingArm(arm))
    else if row.base.value.n < 2 then Some(TooFewReps(arm, "base"))
    else if row.head.value.n < 2 then Some(TooFewReps(arm, "head"))
    else if row.paired.None? || row.paired.value.n < 2 then Some(TooFewPaired(arm))
    else None
  }

  // The largest by magnitude (the first of equals), and the largest.
  function WorstDelta(ds: seq<real>): real
    requires ds != []
  {
    if |ds| == 1 then ds[0]
    else
      var before := WorstDelta(ds[..|ds| - 1]);
      if Abs(ds[|ds| - 1]) > Abs(before) then ds[|ds| - 1] else before
  }

  function MaxOf(xs: seq<real>): real
    requires xs != []
  {
    if |xs| == 1 then xs[0]
    else
      var before := MaxOf(xs[..|xs| - 1]);
      if xs[|xs| - 1] > before then xs[|xs| - 1] else before
  }

  function Judge(deltas: seq<real>, semSqs: seq<real>, resolution: Option<real>): Verdict
    requires deltas != []
  {
    var d := WorstDelta(deltas);
    var s := if semSqs == [] then None else Some(MaxOf(semSqs));
    var reading :=
      if resolution.None? || resolution.value <= 0.0 then NoResolution
      else if s.Some? && s.value > Square(resolution.value) then NoisyRun
      else if Abs(d) <= resolution.value then WithinResolution
      else OutsideResolution;
    Verdict(reading, Some(d), s)
  }

  method AbReading(stats: seq<(string, Row)>, resolution: Option<real>) returns (v: Verdict)
    ensures v == ReadingSpec(stats, resolution)
  {
    if stats == [] {
      return Verdict(NoArms, None, None);
    }
    var deltas, semSqs := [], [];
    for i := 0 to |stats|
      invariant ReadingFrom(stats, [], [], resolution) == ReadingFrom(stats[i..], deltas, semSqs, resolution)
      invariant |deltas| == i
    {
      var (arm, row) := stats[i];
      assert stats[i..][1..] == stats[i + 1..];
      if row.base.None? || row.head.None? || row.delta.None? {
        return Verdict(MissingArm(arm), None, None);
      }
      if row.base.value.n < 2 {
        return Verdict(TooFewReps(arm, "base"), None, None);
      }
      if row.head.value.n < 2 {
        return Verdict(TooFewReps(arm, "head"), None, None);
      }
      if row.paired.None? || row.paired.value.n < 2 {
        return Verdict(TooFewPaired(arm), None, None);
      }
      deltas := deltas + [row.paired.value.delta];
      if row.paired.value.semSq.Some? {
        semSqs := semSqs + [row.paired.value.semSq.value];
      }
    }
    v := Judge(deltas, semSqs, resolution);
  }

  function ReadingFrom(stats: seq<(string, Row)>, deltas: seq<real>, semSqs: seq<real>,
                       resolution: Option<real>): Verdict
    decreases |stats|
  {
    if stats == [] then
      if deltas == [] then Verdict(NoArms, None, None) else Judge(deltas, semSqs, resolution)
    else
      var (arm, row) := stats[0];
      match Unjudgeable(arm, row)
      case Some(why) => Verdict(why, None, None)
      case None =>
        var p := row.paired.value;
        ReadingFrom(stats[1..], deltas + [p.delta],
                    if p.semSq.Some? then semSqs + [p.semSq.value] else semSqs, resolution)
  }

  function ReadingSpec(stats: seq<(string, Row)>, resolution: Option<real>): Verdict {
    ReadingFrom(stats, [], [], resolution)
  }

  // -------------------------------------------------- when the verdict is a pass

  // Two readings on each side, a usable base mean, two pairs, and both paired numbers inside the bar.
  ghost predicate ArmWithin(s: Sides, resolution: real) {
    var b, h, ds := NonZero(s.base), NonZero(s.head), Deltas(s.base, s.head);
    && |b| >= 2 && |h| >= 2 && Mean(b) != 0.0 && |ds| >= 2
    && Abs(Mean(ds)) <= resolution && SemSq(ds) <= Square(resolution)
  }

  ghost predicate AllInside(ds: seq<real>, bar: real) {
    forall i | 0 <= i < |ds| :: Abs(ds[i]) <= bar
  }

  ghost predicate AllAtMost(xs: seq<real>, bar: real) {
    forall i | 0 <= i < |xs| :: xs[i] <= bar
  }

  ghost predicate AllArmsWithin(arms: seq<(string, Sides)>, resolution: real) {
    forall i | 0 <= i < |arms| :: ArmWithin(arms[i].1, resolution)
  }

  lemma {:induction false} WorstDeltaIs(ds: seq<real>, bar: real)
    requires ds != []
    ensures Abs(WorstDelta(ds)) <= bar <==> AllInside(ds, bar)
  {
    if |ds| > 1 {
      var init := ds[..|ds| - 1];
      WorstDeltaIs(init, bar);
      WorstDeltaIs(init, Abs(WorstDelta(init)));
      assert forall i | 0 <= i < |init| :: init[i] == ds[i];
    }
  }

  lemma {:induction false} MaxOfIs(xs: seq<real>, bar: real)
    requires xs != []
    ensures MaxOf(xs) <= bar <==> AllAtMost(xs, bar)
  {
    if |xs| > 1 {
      var init := xs[..|xs| - 1];
      MaxOfIs(init, bar);
      assert forall i | 0 <= i < |init| :: init[i] == xs[i];
    }
  }

  lemma JudgePasses(deltas: seq<real>, semSqs: seq<real>, resolution: real)
    requires resolution > 0.0 && deltas != []
    ensures Judge(deltas, semSqs, Some(resolution)).reading == WithinResolution
            <==> AllInside(deltas, resolution) && AllAtMost(semSqs, Square(resolution))
  {
    WorstDeltaIs(deltas, resolution);
    if semSqs != [] { MaxOfIs(semSqs, Square(resolution)); }
  }

  lemma ArmWithinIs(arm: string, s: Sides, resolution: real)
    ensures var row := RowOf(s);
            ArmWithin(s, resolution)
            <==> && Unjudgeable(arm, row).None?
                 && Abs(row.paired.value.delta) <= resolution
                 && row.paired.value.semSq.Some? && row.paired.value.semSq.value <= Square(resolution)
  {
  }

  lemma AddOne(ds: seq<real>, d: real, bar: real)
    ensures AllInside(ds + [d], bar) <==> AllInside(ds, bar) && Abs(d) <= bar
    ensures AllAtMost(ds + [d], bar) <==> AllAtMost(ds, bar) && d <= bar
  {
    var e := ds + [d];
    assert e[|ds|] == d;
    assert forall i | 0 <= i < |ds| :: e[i] == ds[i];
  }

  // Judging with accumulated evidence: a pass needs every accumulated number and every remaining arm inside.
  lemma {:induction false} PassFrom(arms: seq<(string, Sides)>, deltas: seq<real>, semSqs: seq<real>, resolution: real)
    requires resolution > 0.0
    ensures ReadingFrom(StatsSpec(arms), deltas, semSqs, Some(resolution)).reading == WithinResolution
            <==> && |arms| + |deltas| >= 1
                 && AllInside(deltas, resolution) && AllAtMost(semSqs, Square(resolution))
                 && AllArmsWithin(arms, resolution)
    decreases |arms|
  {
    if arms == [] {
      if deltas != [] { JudgePasses(deltas, semSqs, resolution); }
    } else {
      var stats := StatsSpec(arms);
      assert stats[1..] == StatsSpec(arms[1..]);
      var (arm, s) := arms[0];
      ArmWithinIs(arm, s, resolution);
      assert AllArmsWithin(arms, resolution) <==> ArmWithin(s, resolution) && AllArmsWithin(arms[1..], resolution) by {
        assert forall i | 0 < i < |arms| :: arms[i] == arms[1..][i - 1];
      }
      if Unjudgeable(arm, RowOf(s)).None? {
        var p := RowOf(s).paired.value;
        PassFrom(arms[1..], deltas + [p.delta], semSqs + [p.semSq.value], resolution);
        AddOne(deltas, p.delta, resolution);
        AddOne(semSqs, p.semSq.value, Square(resolution));
      }
    }
  }

  // MAIN RESULT.  The reading is a pass exactly when a positive resolution is recorded, there is an
  // arm, and EVERY arm is complete and inside the resolution: no arm can mask another.
  lemma PassIffEveryArmIsWithin(arms: seq<(string, Sides)>, resolution: Option<real>)
    ensures ReadingSpec(StatsSpec(arms), resolution).reading == WithinResolution
            <==> && resolution.Some? && resolution.value > 0.0 && arms != []
                 && AllArmsWithin(arms, resolution.value)
  {
    if resolution.Some? && resolution.value > 0.0 {
      PassFrom(arms, [], [], resolution.value);
    } else {
      NoPassWithoutResolution(StatsSpec(arms), [], [], resolution);
    }
  }

  lemma {:induction false} NoPassWithoutResolution(stats: seq<(string, Row)>, deltas: seq<real>, semSqs: seq<real>,
                                                   resolution: Option<real>)
    requires resolution.None? || resolution.value <= 0.0
    ensures ReadingFrom(stats, deltas, semSqs, resolution).reading != WithinResolution
    decreases |stats|
  {
    if stats != [] && Unjudgeable(stats[0].0, stats[0].1).None? {
      var p := stats[0].1.paired.value;
      NoPassWithoutResolution(stats[1..], deltas + [p.delta],
                              if p.semSq.Some? then semSqs + [p.semSq.value] else semSqs, resolution);
    }
  }

  // ----------------------------------------------------------- every other reading

  // An arm that can be judged: two readings on each side, a usable base mean and two pairs.
  ghost predicate Complete(s: Sides) {
    && |NonZero(s.base)| >= 2 && |NonZero(s.head)| >= 2 && Mean(NonZero(s.base)) != 0.0
    && |Deltas(s.base, s.head)| >= 2
  }

  ghost predicate AllComplete(arms: seq<(string, Sides)>) {
    forall i | 0 <= i < |arms| :: Complete(arms[i].1)
  }

  ghost function ArmDeltas(arms: seq<(string, Sides)>): seq<real>
    requires AllComplete(arms)
  {
    seq(|arms|, i requires 0 <= i < |arms| => Mean(Deltas(arms[i].1.base, arms[i].1.head)))
  }

  ghost function ArmSemSqs(arms: seq<(string, Sides)>): seq<real>
    requires AllComplete(arms)
  {
    seq(|arms|, i requires 0 <= i < |arms| => SemSq(Deltas(arms[i].1.base, arms[i].1.head)))
  }

  lemma {:induction false} CompleteReads(arms: seq<(string, Sides)>, deltas: seq<real>, semSqs: seq<real>,
                                         resolution: Option<real>)
    requires AllComplete(arms)
    ensures ReadingFrom(StatsSpec(arms), deltas, semSqs, resolution) ==
            if deltas + ArmDeltas(arms) == [] then Verdict(NoArms, None, None)
            else Judge(deltas + ArmDeltas(arms), semSqs + ArmSemSqs(arms), resolution)
    decreases |arms|
  {
    if arms == [] {
      assert deltas + [] == deltas && semSqs + [] == semSqs;
    } else {
      var rest := arms[1..];
      var d, q := ArmDeltas(arms)[0], ArmSemSqs(arms)[0];
      OneMoreReads(arms, deltas, semSqs, resolution);
      CompleteReads(rest, deltas + [d], semSqs + [q], resolution);
      FirstArm(arms);
      Regroup(deltas, d, ArmDeltas(rest));
      Regroup(semSqs, q, ArmSemSqs(rest));
    }
  }

  lemma Regroup(a: seq<real>, x: real, b: seq<real>)
    ensures a + [x] + b == a + ([x] + b)
  {
  }

  lemma FirstArm(arms: seq<(string, Sides)>)
    requires arms != [] && AllComplete(arms)
    ensures ArmDeltas(arms) == [ArmDeltas(arms)[0]] + ArmDeltas(arms[1..])
    ensures ArmSemSqs(arms) == [ArmSemSqs(arms)[0]] + ArmSemSqs(arms[1..])
  {
  }

  lemma OneMoreReads(arms: seq<(string, Sides)>, deltas: seq<real>, semSqs: seq<real>, resolution: Option<real>)
    requires arms != [] && AllComplete(arms)
    ensures ReadingFrom(StatsSpec(arms), deltas, semSqs, resolution) ==
            ReadingFrom(StatsSpec(arms[1..]), deltas + [ArmDeltas(arms)[0]], semSqs + [ArmSemSqs(arms)[0]], resolution)
  {
    assert StatsSpec(arms)[1..] == StatsSpec(arms[1..]);
    WhyIs(arms[0].0, arms[0].1);
  }

  // What is wrong with an arm that cannot be judged: a side, or the base mean to divide by, is missing; one
  // reading is all a side has; or too few repetitions have both.
  lemma WhyIs(arm: string, s: Sides)
    ensures var why, b, h := Unjudgeable(arm, RowOf(s)), NonZero(s.base), NonZero(s.head);
            && (why == None <==> Complete(s))
            && (why == Some(MissingArm(arm)) <==> b == [] || h == [] || Mean(b) == 0.0)
            && (why == Some(TooFewReps(arm, "base")) <==> |b| == 1 && h != [] && Mean(b) != 0.0)
            && (why == Some(TooFewReps(arm, "head")) <==> |b| >= 2 && |h| == 1 && Mean(b) != 0.0)
            && (why == Some(TooFewPaired(arm)) <==>
                  |b| >= 2 && |h| >= 2 && Mean(b) != 0.0 && |Deltas(s.base, s.head)| < 2)
  {
    assert |"base"| == |"head"| == 4 && "base"[0] != "head"[0];
  }

  // The first arm that cannot be judged decides, whatever the others are.
  lemma {:induction false} IncompleteReads(arms: seq<(string, Sides)>, k: nat, deltas: seq<real>, semSqs: seq<real>,
                                           resolution: Option<real>)
    requires k < |arms| && AllComplete(arms[..k]) && !Complete(arms[k].1)
    ensures var why := Unjudgeable(arms[k].0, RowOf(arms[k].1));
            why.Some? && ReadingFrom(StatsSpec(arms), deltas, semSqs, resolution) == Verdict(why.value, None, None)
    decreases |arms|
  {
    WhyIs(arms[k].0, arms[k].1);
    if k > 0 {
      var rest, p := arms[1..], RowOf(arms[0].1).paired.value;
      assert StatsSpec(arms)[1..] == StatsSpec(rest) && arms[..k][0] == arms[0];
      assert rest[..k - 1] == arms[..k][1..];
      WhyIs(arms[0].0, arms[0].1);
      IncompleteReads(rest, k - 1, deltas + [p.delta],
                      if p.semSq.Some? then semSqs + [p.semSq.value] else semSqs, resolution);
    }
  }

  lemma JudgeIs(deltas: seq<real>, semSqs: seq<real>, resolution: Option<real>)
    requires deltas != [] && semSqs != []
    ensures var r := Judge(deltas, semSqs, resolution).reading;
            if resolution.None? || resolution.value <= 0.0 then r == NoResolution
            else
              && (r == NoisyRun <==> !AllAtMost(semSqs, Square(resolution.value)))
              && (r == OutsideResolution <==>
                    AllAtMost(semSqs, Square(resolution.value)) && !AllInside(deltas, resolution.value))
              && (r == WithinResolution <==>
                    AllAtMost(semSqs, Square(resolution.value)) && AllInside(deltas, resolution.value))
  {
    if resolution.Some? {
      WorstDeltaIs(deltas, resolution.value);
      MaxOfIs(semSqs, Square(resolution.value));
    }
  }

  // Some arm's pairs scatter more than the resolution; some arm's mean lies outside it.
  ghost predicate SomeNoisy(arms: seq<(string, Sides)>, resolution: real)
    requires AllComplete(arms)
  {
    exists i | 0 <= i < |arms| :: SemSq(Deltas(arms[i].1.base, arms[i].1.head)) > Square(resolution)
  }

  ghost predicate SomeOutside(arms: seq<(string, Sides)>, resolution: real)
    requires AllComplete(arms)
  {
    exists i | 0 <= i < |arms| :: Abs(Mean(Deltas(arms[i].1.base, arms[i].1.head))) > resolution
  }

  lemma ArmsScatter(arms: seq<(string, Sides)>, resolution: real)
    requires AllComplete(arms)
    ensures SomeNoisy(arms, resolution) <==> !AllAtMost(ArmSemSqs(arms), Square(resolution))
    ensures SomeOutside(arms, resolution) <==> !AllInside(ArmDeltas(arms), resolution)
  {
    assert forall i | 0 <= i < |arms| :: ArmSemSqs(arms)[i] == SemSq(Deltas(arms[i].1.base, arms[i].1.head));
    assert forall i | 0 <= i < |arms| :: ArmDeltas(arms)[i] == Mean(Deltas(arms[i].1.base, arms[i].1.head));
  }

  // MAIN RESULT.  What every reading means once all arms can be judged: without a resolution nothing is said;
  // otherwise the run is noisy as soon as one arm scatters more than the resolution, outside it as soon as none
  // does and one arm's mean is, and within it else.
  lemma ReadingIs(arms: seq<(string, Sides)>, resolution: Option<real>)
    requires arms != [] && AllComplete(arms)
    ensures var r := ReadingSpec(StatsSpec(arms), resolution).reading;
            if resolution.None? || resolution.value <= 0.0 then r == NoResolution
            else
              && (r == NoisyRun <==> SomeNoisy(arms, resolution.value))
              && (r == OutsideResolution <==> !SomeNoisy(arms, resolution.value) && SomeOutside(arms, resolution.value))
              && (r == WithinResolution <==>
                    !SomeNoisy(arms, resolution.value) && !SomeOutside(arms, resolution.value))
  {
    CompleteReads(arms, [], [], resolution);
    assert [] + ArmDeltas(arms) == ArmDeltas(arms) && [] + ArmSemSqs(arms) == ArmSemSqs(arms);
    JudgeIs(ArmDeltas(arms), ArmSemSqs(arms), resolution);
    if resolution.Some? { ArmsScatter(arms, resolution.value); }
  }

  // The first of the numbers with the largest magnitude.
  ghost predicate FirstWorst(ds: seq<real>, d: real) {
    exists k: nat :: k < |ds| && ds[k] == d && AllInside(ds, Abs(d)) && forall i | 0 <= i < k :: Abs(ds[i]) < Abs(d)
  }

  lemma {:induction false} WorstIsFirst(ds: seq<real>)
    requires ds != []
    ensures FirstWorst(ds, WorstDelta(ds))
  {
    var last := |ds| - 1;
    if last == 0 {
      assert ds[0] == WorstDelta(ds);
    } else {
      var init := ds[..last];
      WorstIsFirst(init);
      assert forall i | 0 <= i < last :: ds[i] == init[i];
      var d := WorstDelta(init);
      var k: nat :| k < |init| && init[k] == d && AllInside(init, Abs(d)) &&
                    forall i | 0 <= i < k :: Abs(init[i]) < Abs(d);
      assert forall i | 0 <= i < last :: Abs(init[i]) <= Abs(d);
      if Abs(ds[last]) > Abs(d) {
        assert ds[last] == WorstDelta(ds);
      } else {
        assert ds[k] == WorstDelta(ds);
      }
    }
  }

  lemma {:induction false} MaxIsOne(xs: seq<real>)
    requires xs != []
    ensures MaxOf(xs) in xs
  {
    if |xs| > 1 { MaxIsOne(xs[..|xs| - 1]); }
  }

  // The numbers quoted with the reading: the first arm's mean with the largest magnitude, and the largest scatter.
  lemma WorstIs(arms: seq<(string, Sides)>, resolution: Option<real>)
    requires arms != [] && AllComplete(arms)
    ensures var v := ReadingSpec(StatsSpec(arms), resolution);
            && v.worstDelta.Some? && FirstWorst(ArmDeltas(arms), v.worstDelta.value)
            && v.worstSemSq.Some? && v.worstSemSq.value in ArmSemSqs(arms)
            && AllAtMost(ArmSemSqs(arms), v.worstSemSq.value)
  {
    CompleteReads(arms, [], [], resolution);
    var ds, ss := ArmDeltas(arms), ArmSemSqs(arms);
    assert [] + ds == ds && [] + ss == ss;
    WorstIsFirst(ds);
    MaxOfIs(ss, MaxOf(ss));
    MaxIsOne(ss);
  }

  // -------------------------------------------------------- common-mode cancellation

  // Both rates of repetition k multiplied by the same factor f(k).
  function Scale(xs: seq<real>, f: nat -> real, k: nat): seq<real>
    decreases |xs|
  {
    if xs == [] then [] else [f(k) * xs[0]] + Scale(xs[1..], f, k + 1)
  }

  ghost predicate AllPositive(f: nat -> real) {
    forall k: nat :: f(k) > 0.0
  }

  predicate AreRates(xs: seq<real>) {
    forall i | 0 <= i < |xs| :: xs[i] >= 0.0
  }

  lemma QuotientIs(a: real, b: real, r: real)
    requires b != 0.0 && r * b == a
    ensures a / b == r
  {
  }

  lemma ProductIsZero(c: real, x: real)
    requires c != 0.0
    ensures c * x == 0.0 <==> x == 0.0
  {
  }

  lemma DeltaScaled(x: real, y: real, c: real)
    requires x != 0.0 && c > 0.0
    ensures c * x != 0.0 && Delta(c * x, c * y) == Delta(x, y)
  {
    var r := Delta(x, y);
    assert r * x == 100.0 * (y - x);
    assert r * (c * x) == c * (r * x) == c * (100.0 * (y - x)) == 100.0 * (c * y - c * x);
    QuotientIs(100.0 * (c * y - c * x), c * x, r);
  }

  lemma {:induction false} DeltasScaled(b: seq<real>, h: seq<real>, f: nat -> real, k: nat)
    requires AllPositive(f)
    ensures Deltas(Scale(b, f, k), Scale(h, f, k)) == Deltas(b, h)
    decreases |b|
  {
    if b != [] && h != [] {
      DeltasScaled(b[1..], h[1..], f, k + 1);
      var b', h' := Scale(b, f, k), Scale(h, f, k);
      assert b'[1..] == Scale(b[1..], f, k + 1) && h'[1..] == Scale(h[1..], f, k + 1);
      assert f(k) > 0.0;
      ProductIsZero(f(k), b[0]);
      ProductIsZero(f(k), h[0]);
      assert b'[0] == f(k) * b[0] && h'[0] == f(k) * h[0];
      if b[0] != 0.0 {
        DeltaScaled(b[0], h[0], f(k));
        assert Delta(b'[0], h'[0]) == Delta(b[0], h[0]);
      }
      var first := if b[0] != 0.0 && h[0] != 0.0 then [Delta(b[0], h[0])] else [];
      assert Deltas(b', h') == first + Deltas(b'[1..], h'[1..]);
    }
  }

  lemma {:induction false} NonZeroSum(xs: seq<real>)
    requires AreRates(xs)
    ensures Sum(NonZero(xs)) >= 0.0
    ensures NonZero(xs) != [] ==> Sum(NonZero(xs)) > 0.0
  {
    if xs != [] {
      NonZeroSum(xs[1..]);
      if xs[0] != 0.0 {
        assert NonZero(xs)[1..] == NonZero(xs[1..]);
      } else {
        assert NonZero(xs) == NonZero(xs[1..]);
      }
    }
  }

  lemma {:induction false} ScaledRates(xs: seq<real>, f: nat -> real, k: nat)
    requires AllPositive(f) && AreRates(xs)
    ensures AreRates(Scale(xs, f, k)) && |NonZero(Scale(xs, f, k))| == |NonZero(xs)|
    decreases |xs|
  {
    if xs != [] {
      ScaledRates(xs[1..], f, k + 1);
      var ys := Scale(xs, f, k);
      assert ys[1..] == Scale(xs[1..], f, k + 1);
      assert f(k) > 0.0;
      assert xs[0] > 0.0 ==> f(k) * xs[0] > 0.0;
    }
  }

  // Scaling keeps the number of readings, and whether the mean can be divided by.
  lemma SideScaled(xs: seq<real>, f: nat -> real)
    requires AllPositive(f) && AreRates(xs)
    ensures var a, b := SideOf(xs), SideOf(Scale(xs, f, 0));
            a.Some? == b.Some? && (a.Some? ==> a.value.n == b.value.n && a.value.mean > 0.0 && b.value.mean > 0.0)
  {
    ScaledRates(xs, f, 0);
    NonZeroSum(xs);
    NonZeroSum(Scale(xs, f, 0));
  }

  function ScaleArms(arms: seq<(string, Sides)>, f: nat -> nat -> real): seq<(string, Sides)> {
    seq(|arms|, i requires 0 <= i < |arms| =>
      (arms[i].0, Sides(Scale(arms[i].1.base, f(i), 0), Scale(arms[i].1.head, f(i), 0))))
  }

  // The parts of a row the reading depends on.
  ghost predicate SameEvidence(a: Row, b: Row) {
    && a.base.Some? == b.base.Some? && (a.base.Some? ==> a.base.value.n == b.base.value.n)
    && a.head.Some? == b.head.Some? && (a.head.Some? ==> a.head.value.n == b.head.value.n)
    && a.delta.Some? == b.delta.Some? && a.paired == b.paired
  }

  lemma RowScaled(s: Sides, f: nat -> real)
    requires AllPositive(f) && AreRates(s.base) && AreRates(s.head)
    ensures var s' := Sides(Scale(s.base, f, 0), Scale(s.head, f, 0));
            RowOf(s').paired == RowOf(s).paired && SameEvidence(RowOf(s'), RowOf(s))
  {
    DeltasScaled(s.base, s.head, f, 0);
    SideScaled(s.base, f);
    SideScaled(s.head, f);
  }

  lemma {:induction false} SameEvidenceSameReading(a: seq<(string, Row)>, b: seq<(string, Row)>,
                                                   deltas: seq<real>, semSqs: seq<real>, resolution: Option<real>)
    requires |a| == |b| && forall i | 0 <= i < |a| :: a[i].0 == b[i].0 && SameEvidence(a[i].1, b[i].1)
    ensures ReadingFrom(a, deltas, semSqs, resolution) == ReadingFrom(b, deltas, semSqs, resolution)
    decreases |a|
  {
    if a != [] && Unjudgeable(a[0].0, a[0].1).None? {
      var p := a[0].1.paired.value;
      SameEvidenceSameReading(a[1..], b[1..], deltas + [p.delta],
                              if p.semSq.Some? then semSqs + [p.semSq.value] else semSqs, resolution);
    }
  }

  // MAIN RESULT.  Whatever positive factor each repetition of each arm was slowed or sped by, as long
  // as base and head saw it together, the paired deltas, their mean and standard error and the whole
  // verdict stay exactly the same.
  lemma CommonModeCancels(arms: seq<(string, Sides)>, f: nat -> nat -> real, resolution: Option<real>)
    requires forall i | 0 <= i < |arms| :: AllPositive(f(i)) && AreRates(arms[i].1.base) && AreRates(arms[i].1.head)
    ensures ReadingSpec(StatsSpec(ScaleArms(arms, f)), resolution) == ReadingSpec(StatsSpec(arms), resolution)
    ensures forall i | 0 <= i < |arms| :: StatsSpec(ScaleArms(arms, f))[i].1.paired == StatsSpec(arms)[i].1.paired
  {
    var a, b := StatsSpec(ScaleArms(arms, f)), StatsSpec(arms);
    forall i | 0 <= i < |arms| ensures SameEvidence(a[i].1, b[i].1) { RowScaled(arms[i].1, f(i)); }
    SameEvidenceSameReading(a, b, [], [], resolution);
  }

  // A repetition has a reading exactly when its rate is not zero.
  lemma ReadingsByRepetition(x: real, xs: seq<real>)
    ensures NonZero([x] + xs) == (if x == 0.0 then [] else [x]) + NonZero(xs)
  {
    assert ([x] + xs)[1..] == xs;
  }

  // The row's own delta is that of the two means, given exactly when both sides have one and the base's is not zero.
  lemma RowDeltaMeans(s: Sides)
    ensures var r, b, h := RowOf(s), NonZero(s.base), NonZero(s.head);
            && (r.delta.Some? <==> b != [] && h != [] && Mean(b) != 0.0)
            && (r.delta.Some? ==> Mean(h) == Mean(b) * (1.0 + r.delta.value / 100.0))
  {
    var b, h := NonZero(s.base), NonZero(s.head);
    if b != [] && h != [] && Mean(b) != 0.0 { DeltaMeans(Mean(b), Mean(h), Delta(Mean(b), Mean(h))); }
  }
}
