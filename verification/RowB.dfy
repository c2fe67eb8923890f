/**
Row b of the jumbo gate: the per-node probe counters folded into the one series the
verdict judges, the rule that fixes the number of interleaved pairs, and the verdict.
Standard errors are represented by their squares.
 */
module RowB {
  import opened AbVerdict
  import opened Numbers

  // ---------------------------------------------------------------- the probe clause

  predicate Decreases(s: seq<int>) {
    exists i | 0 <= i < |s| - 1 :: s[i + 1] < s[i]
  }

  // A counter series of at least two samples that fell somewhere or did not end above its start.
  predicate NotClimbing(s: seq<int>) {
    |s| >= 2 && (Decreases(s) || s[|s| - 1] <= s[0])
  }

  // A node and its own series, nodes in address order.
  datatype Node = Node(ip: string, series: seq<int>)

  function Answered(nodes: seq<Node>): seq<Node> {
    if nodes == [] then [] else (if nodes[0].series != [] then [nodes[0]] else []) + Answered(nodes[1..])
  }

  // The first node that does not climb, or |nodes|.
  function FirstOffender(nodes: seq<Node>): nat {
    if nodes == [] || NotClimbing(nodes[0].series) then 0 else 1 + FirstOffender(nodes[1..])
  }

  function Shortest(nodes: seq<Node>): nat {
    if nodes == [] then 0
    else if |nodes| == 1 then |nodes[0].series|
    else var m := Shortest(nodes[1..]); if |nodes[0].series| < m then |nodes[0].series| else m
  }

  function SumAt(nodes: seq<Node>, i: nat): int
    requires forall k | 0 <= k < |nodes| :: i < |nodes[k].series|
  {
    if nodes == [] then 0 else nodes[0].series[i] + SumAt(nodes[1..], i)
  }

  lemma {:induction false} ShortestIs(nodes: seq<Node>)
    ensures forall k | 0 <= k < |nodes| :: Shortest(nodes) <= |nodes[k].series|
    ensures nodes != [] ==> exists k | 0 <= k < |nodes| :: |nodes[k].series| == Shortest(nodes)
  {
    if |nodes| == 1 {
      assert |nodes[0].series| == Shortest(nodes);
    } else if nodes != [] {
      ShortestIs(nodes[1..]);
      var k :| 0 <= k < |nodes[1..]| && |nodes[1..][k].series| == Shortest(nodes[1..]);
      assert nodes[k + 1] == nodes[1..][k];
      assert forall k | 0 < k < |nodes| :: nodes[k] == nodes[1..][k - 1];
      assert Shortest(nodes) == |nodes[0].series| || Shortest(nodes) == |nodes[k + 1].series|;
    }
  }

  // The fleet-wide sum, truncated to the shortest series.
  function SumSeries(nodes: seq<Node>): seq<int> {
    ShortestIs(nodes);
    seq(Shortest(nodes), i requires 0 <= i < Shortest(nodes) => SumAt(nodes, i))
  }

  // The one series handed to the verdict: the first offending node's own, else the sum.
  function ProbeSeries(all: seq<Node>): seq<int> {
    var nodes := Answered(all);
    var f := FirstOffender(nodes);
    if f < |nodes| then nodes[f].series else SumSeries(nodes)
  }

  lemma {:induction false} FirstOffenderIs(nodes: seq<Node>)
    ensures var f := FirstOffender(nodes);
            && f <= |nodes| && (f < |nodes| ==> NotClimbing(nodes[f].series))
            && forall k | 0 <= k < f :: !NotClimbing(nodes[k].series)
  {
    if nodes != [] && !NotClimbing(nodes[0].series) {
      FirstOffenderIs(nodes[1..]);
      assert forall k | 0 < k < FirstOffender(nodes) :: nodes[k] == nodes[1..][k - 1];
    }
  }

  lemma {:induction false} AnsweredIs(nodes: seq<Node>)
    ensures forall k | 0 <= k < |Answered(nodes)| :: Answered(nodes)[k].series != []
    ensures forall x: Node | NotClimbing(x.series) :: x in Answered(nodes) <==> x in nodes
  {
    if nodes != [] {
      AnsweredIs(nodes[1..]);
      assert nodes == [nodes[0]] + nodes[1..];
    }
  }

  // Summing climbing series up to their shortest length neither falls nor stays flat.
  lemma {:induction false} SumMoves(nodes: seq<Node>, i: nat, j: nat)
    requires i <= j && forall k | 0 <= k < |nodes| :: j < |nodes[k].series| && nodes[k].series[i] <= nodes[k].series[j]
    ensures SumAt(nodes, i) <= SumAt(nodes, j)
    ensures (exists k | 0 <= k < |nodes| :: nodes[k].series[i] < nodes[k].series[j]) ==>
              SumAt(nodes, i) < SumAt(nodes, j)
  {
    if nodes != [] {
      SumMoves(nodes[1..], i, j);
      if k :| 0 <= k < |nodes| && nodes[k].series[i] < nodes[k].series[j] {
        if k > 0 { assert nodes[1..][k - 1] == nodes[k]; }
      }
    }
  }

  lemma {:induction false} NonDecreasing(s: seq<int>, i: nat, j: nat)
    requires !Decreases(s) && i <= j < |s|
    ensures s[i] <= s[j]
    decreases j
  {
    if i < j {
      NonDecreasing(s, i, j - 1);
      assert !(s[j - 1 + 1] < s[j - 1]);
    }
  }

  ghost predicate AllClimb(nodes: seq<Node>) {
    forall k | 0 <= k < |nodes| :: !NotClimbing(nodes[k].series)
  }

  lemma SumStep(nodes: seq<Node>, i: nat, j: nat)
    requires AllClimb(nodes) && i <= j < Shortest(nodes)
    ensures SumSeries(nodes)[i] <= SumSeries(nodes)[j]
  {
    ShortestIs(nodes);
    forall k | 0 <= k < |nodes| ensures nodes[k].series[i] <= nodes[k].series[j] {
      if i < j { NonDecreasing(nodes[k].series, i, j); }
    }
    SumMoves(nodes, i, j);
  }

  lemma SumRises(nodes: seq<Node>)
    requires AllClimb(nodes) && Shortest(nodes) >= 2
    ensures SumSeries(nodes)[0] < SumSeries(nodes)[Shortest(nodes) - 1]
  {
    ShortestIs(nodes);
    var last := Shortest(nodes) - 1;
    forall k | 0 <= k < |nodes| ensures nodes[k].series[0] <= nodes[k].series[last] {
      NonDecreasing(nodes[k].series, 0, last);
    }
    var k :| 0 <= k < |nodes| && |nodes[k].series| == last + 1;
    assert nodes[k].series[0] < nodes[k].series[last];
    SumMoves(nodes, 0, last);
  }

  lemma SumOfClimbingClimbs(nodes: seq<Node>)
    requires AllClimb(nodes)
    ensures !NotClimbing(SumSeries(nodes))
  {
    var n, sum := Shortest(nodes), SumSeries(nodes);
    if n >= 2 {
      forall i | 0 <= i < n - 1 ensures !(sum[i + 1] < sum[i]) { SumStep(nodes, i, i + 1); }
      SumRises(nodes);
    }
  }

  // MAIN RESULT.  Folding hides no offender and invents none: the clause on the single series fails
  // exactly when some node's own series fell somewhere or did not end above its start.
  lemma FoldingIsFaithful(all: seq<Node>)
    ensures NotClimbing(ProbeSeries(all)) <==> exists x | x in all :: NotClimbing(x.series)
  {
    var nodes := Answered(all);
    AnsweredIs(all);
    FirstOffenderIs(nodes);
    var f := FirstOffender(nodes);
    if f < |nodes| {
      assert nodes[f] in nodes;
    } else {
      SumOfClimbingClimbs(nodes);
      assert forall x | x in nodes :: !NotClimbing(x.series);
    }
  }

  lemma {:induction false} NobodyAnswered(all: seq<Node>)
    ensures Answered(all) == [] <==> forall x | x in all :: x.series == []
  {
    if all != [] {
      NobodyAnswered(all[1..]);
      assert all == [all[0]] + all[1..] && all[0] in all;
    }
  }

  // The folded series is empty only when no node answered a single scrape.
  lemma NoSeriesIff(all: seq<Node>)
    ensures ProbeSeries(all) == [] <==> forall x | x in all :: x.series == []
  {
    var nodes := Answered(all);
    NobodyAnswered(all);
    AnsweredIs(all);
    FirstOffenderIs(nodes);
    ShortestIs(nodes);
  }

  // ------------------------------------------------------------- how many pairs to run

  function RequiredPairs(n: nat, observed: real, target: real, minPairs: nat): int
    requires target != 0.0
  {
    if observed <= 0.0 then minPairs
    else
      var needed := Ceil(n as real * Square(observed / target));
      if needed < minPairs then minPairs else needed
  }

  lemma CeilIs(x: real, k: int)
    ensures Ceil(x) <= k <==> x <= k as real
  {
  }

  lemma QuotientSquare(n: real, observed: real, target: real)
    requires target > 0.0
    ensures n * Square(observed / target) * Square(target) == n * Square(observed)
  {
    var q := observed / target;
    assert q * target == observed;
    assert Square(q) * Square(target) == (q * target) * (q * target);
  }

  lemma ScaleBound(x: real, k: real, t: real)
    requires t > 0.0
    ensures x <= k <==> x * t <= k * t
  {
  }

  // The number of pairs is the least one, not below the floor, at which a statistic that falls as
  // 1/sqrt(n) from the observed value has come down to the target.
  lemma RequiredPairsIsLeast(n: nat, observed: real, target: real, minPairs: nat, pairs: nat)
    requires target > 0.0 && observed >= 0.0
    ensures RequiredPairs(n, observed, target, minPairs) <= pairs
            <==> minPairs <= pairs && n as real * Square(observed) <= pairs as real * Square(target)
  {
    if observed > 0.0 {
      var x := n as real * Square(observed / target);
      CeilIs(x, pairs);
      QuotientSquare(n as real, observed, target);
      assert Square(target) > 0.0;
      ScaleBound(x, pairs as real, Square(target));
    } else {
      assert Square(observed) == 0.0;
      assert pairs as real * Square(target) >= 0.0;
    }
  }

  // --------------------------------------------------------------------- the verdict

  // Evidence of one run: rung and EMSGSIZE samples, the probe series, the paired deltas, and the
  // preliminary spread the pair count is fixed from.
  datatype Evidence = Evidence(mtu: seq<int>, emsgsize: seq<int>, nodes: seq<Node>, deltas: seq<real>,
                               prelimN: nat, prelimStat: real)

  datatype Complaint =
    | RungRose | EmsgsizeNonZero | ProbesDecreased | ProbesFlat | TooFewPairs | NoSem | Inconclusive | Slower

  // Raised: the passing row's own message quotes the first and last probe sample, of which there is none.
  datatype Outcome = Passed | Failed | Raised

  const EXPECTED_MTU: int := 1408
  const BAR_PCT: real := -3.0
  const MIN_PAIRS: nat := 5

  function PairComplaints(e: Evidence): seq<Complaint> {
    if |e.deltas| < RequiredPairs(e.prelimN, e.prelimStat, Abs(BAR_PCT), MIN_PAIRS) then [TooFewPairs]
    else if |e.deltas| < 2 then [NoSem]
    else
      var mean, semSq := Mean(e.deltas), SemSq(e.deltas);
      // |mean - bar| < 2 * sem, by squares
      if Square(mean - BAR_PCT) < 4.0 * semSq then [Inconclusive]
      else if mean < BAR_PCT then [Slower]
      else []
  }

  method VerdictRowB(e: Evidence) returns (v: Outcome, bad: seq<Complaint>)
    ensures v == Failed <==> bad != []
    ensures v == Failed <==> !Clears(e)
    ensures v == Raised <==> Clears(e) && forall x | x in e.nodes :: x.series == []
    ensures forall c :: c in bad <==> Complains(e, c)
  {
    bad := [];
    if exists i | 0 <= i < |e.mtu| :: e.mtu[i] != EXPECTED_MTU {
      bad := bad + [RungRose];
    }
    if exists i | 0 <= i < |e.emsgsize| :: e.emsgsize[i] != 0 {
      bad := bad + [EmsgsizeNonZero];
    }
    var series := ProbeSeries(e.nodes);
    if |series| >= 2 {
      if Decreases(series) {
        bad := bad + [ProbesDecreased];
      } else if series[|series| - 1] <= series[0] {
        bad := bad + [ProbesFlat];
      }
    }
    bad := bad + PairComplaints(e);
    v := if bad != [] then Failed else if series == [] then Raised else Passed;
    FoldingIsFaithful(e.nodes);
    NoSeriesIff(e.nodes);
    PairsClearIff(e);
  }

  // When the row makes each of its complaints: about the pairs it makes at most one.
  ghost predicate Complains(e: Evidence, c: Complaint) {
    var series, n := ProbeSeries(e.nodes), |e.deltas|;
    var enough := n >= RequiredPairs(e.prelimN, e.prelimStat, 3.0, 5);
    match c
    case RungRose => exists i | 0 <= i < |e.mtu| :: e.mtu[i] != 1408
    case EmsgsizeNonZero => exists i | 0 <= i < |e.emsgsize| :: e.emsgsize[i] != 0
    case ProbesDecreased => Decreases(series)
    case ProbesFlat => |series| >= 2 && !Decreases(series) && series[|series| - 1] <= series[0]
    case TooFewPairs => !enough
    case NoSem => enough && n < 2
    case Inconclusive => enough && n >= 2 && Square(Mean(e.deltas) + 3.0) < 4.0 * SemSq(e.deltas)
    case Slower => enough && n >= 2 && Square(Mean(e.deltas) + 3.0) >= 4.0 * SemSq(e.deltas) && Mean(e.deltas) < -3.0
  }

  // A run whose pairs clear the row and whose nodes answered no probe scrape: the row is lost to the raise.
  method SilentFleetRaises(nodes: seq<Node>) returns (v: Outcome)
    requires forall x | x in nodes :: x.series == []
    ensures v == Raised
  {
    var bad;
    var level := [0.0, 0.0, 0.0, 0.0, 0.0];
    LevelSums(level);
    v, bad := VerdictRowB(Evidence([EXPECTED_MTU], [0], nodes, level, 0, 0.0));
  }

  lemma {:induction false} LevelSums(deltas: seq<real>)
    requires forall i | 0 <= i < |deltas| :: deltas[i] == 0.0
    ensures Sum(deltas) == 0.0 && SquaresAround(deltas, 0.0) == 0.0
  {
    if deltas != [] { LevelSums(deltas[1..]); }
  }

  // Every sample at the expected rung, no refused send, every node's probes climbing, enough pairs for
  // the observed spread, and a paired mean above the bar by at least two standard errors.
  ghost predicate Clears(e: Evidence) {
    && (forall i | 0 <= i < |e.mtu| :: e.mtu[i] == EXPECTED_MTU)
    && (forall i | 0 <= i < |e.emsgsize| :: e.emsgsize[i] == 0)
    && (forall x | x in e.nodes :: !NotClimbing(x.series))
    && PairsClear(e)
  }

  ghost predicate PairsClear(e: Evidence) {
    && |e.deltas| >= RequiredPairs(e.prelimN, e.prelimStat, 3.0, MIN_PAIRS)
    && Mean(e.deltas) >= BAR_PCT && Square(Mean(e.deltas) - BAR_PCT) >= 4.0 * SemSq(e.deltas)
  }

  lemma PairsClearIff(e: Evidence)
    ensures PairComplaints(e) == [] <==> PairsClear(e)
  {
    assert Abs(BAR_PCT) == 3.0;
  }

  // The folded counter at a tick is the sum of the nodes' own: one node's is its own, and two groups' add up.
  lemma {:induction false} SumAdds(a: seq<Node>, b: seq<Node>, i: nat)
    requires forall k | 0 <= k < |a| :: i < |a[k].series|
    requires forall k | 0 <= k < |b| :: i < |b[k].series|
    ensures SumAt(a + b, i) == SumAt(a, i) + SumAt(b, i)
    ensures |a| == 1 ==> SumAt(a, i) == a[0].series[i]
  {
    if a == [] {
      assert a + b == b;
    } else {
      assert (a + b)[1..] == a[1..] + b;
      SumAdds(a[1..], b, i);
    }
  }
}
