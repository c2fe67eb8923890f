/**
The bucketed quantile of a cumulative histogram, read against the exact order
statistic of the samples the histogram was filled from.
 */
module Histogram {
  import opened Numbers
  import opened Options

  // A bucket's upper bound; the last one of a well-formed ladder is +Inf.
  datatype Bound = Fin(le: real) | Inf

  datatype Bucket = Bucket(le: Bound, cum: real)

  predicate Covers(b: Bound, x: real) {
    b.Inf? || x <= b.le
  }

  predicate Below(a: Bound, b: Bound) {
    a.Fin? && (b.Inf? || a.le < b.le)
  }

  // ------------------------------------------------------------- the algorithm

  function MaxCum(buckets: seq<Bucket>): real
    requires buckets != []
  {
    if |buckets| == 1 then buckets[0].cum
    else
      var rest := MaxCum(buckets[1..]);
      if buckets[0].cum < rest then rest else buckets[0].cum
  }

  // The 1-based rank of the q-th sample out of `total`.
  function Rank(q: real, total: real): int {
    var r := Ceil(q * total);
    if r < 1 then 1 else r
  }

  // The first bucket whose cumulative count reaches `rank`, or |buckets|.
  function FirstReaching(buckets: seq<Bucket>, rank: int): nat {
    if buckets == [] || buckets[0].cum >= rank as real then 0
    else 1 + FirstReaching(buckets[1..], rank)
  }

  function Quantile(buckets: seq<Bucket>, q: real): Option<Bound> {
    if buckets == [] || MaxCum(buckets) <= 0.0 then None
    else
      var i := FirstReaching(buckets, Rank(q, MaxCum(buckets)));
      Some(if i < |buckets| then buckets[i].le else buckets[|buckets| - 1].le)
  }

  method HistQuantile(buckets: seq<Bucket>, q: real) returns (answer: Option<Bound>)
    ensures answer == Quantile(buckets, q)
  {
    if buckets == [] {
      return None;
    }
    var total := buckets[|buckets| - 1].cum;
    var k := |buckets| - 1;
    while k > 0
      invariant 0 <= k < |buckets| && total == MaxCum(buckets[k..])
    {
      k := k - 1;
      assert buckets[k..][1..] == buckets[k + 1..];
      total := if buckets[k].cum < total then total else buckets[k].cum;
    }
    assert buckets[0..] == buckets;
    if total <= 0.0 {
      return None;
    }
    var rank := Rank(q, total);
    for i := 0 to |buckets|
      invariant FirstReaching(buckets, rank) == i + FirstReaching(buckets[i..], rank)
    {
      assert buckets[i..][1..] == buckets[i + 1..];
      if buckets[i].cum >= rank as real {
        return Some(buckets[i].le);
      }
    }
    answer := Some(buckets[|buckets| - 1].le);
  }

  // --------------------------------------------------- the samples behind a scrape

  function CountCovered(samples: seq<real>, b: Bound): nat {
    if samples == [] then 0
    else (if Covers(b, samples[0]) then 1 else 0) + CountCovered(samples[1..], b)
  }

  // The ladder's cumulative counts of the samples.
  function Fill(ladder: seq<Bound>, samples: seq<real>): seq<Bucket> {
    seq(|ladder|, i requires 0 <= i < |ladder| => Bucket(ladder[i], CountCovered(samples, ladder[i]) as real))
  }

  ghost predicate IsLadder(ladder: seq<Bound>) {
    && ladder != [] && ladder[|ladder| - 1] == Inf
    && forall i, j | 0 <= i < j < |ladder| :: Below(ladder[i], ladder[j])
  }

  ghost predicate IsAscending(s: seq<real>) {
    forall i, j | 0 <= i < j < |s| :: s[i] <= s[j]
  }

  // `sorted` is an ascending arrangement of `samples`.
  ghost predicate Arranges(sorted: seq<real>, samples: seq<real>) {
    IsAscending(sorted) && multiset(sorted) == multiset(samples)
  }

  // ------------------------------------------------------------ counting lemmas

  lemma {:induction false} CountConcat(a: seq<real>, b: seq<real>, x: Bound)
    ensures CountCovered(a + b, x) == CountCovered(a, x) + CountCovered(b, x)
  {
    if a == [] {
      assert a + b == b;
    } else {
      assert (a + b)[1..] == a[1..] + b;
      CountConcat(a[1..], b, x);
    }
  }

  lemma CountWithout(t: seq<real>, i: nat, b: Bound)
    requires i < |t|
    ensures CountCovered(t, b) == CountCovered(t[..i] + t[i + 1..], b) + if Covers(b, t[i]) then 1 else 0
  {
    assert t == t[..i] + t[i..];
    CountConcat(t[..i], t[i..], b);
    CountConcat(t[..i], t[i + 1..], b);
    assert t[i..][1..] == t[i + 1..];
  }

  lemma WithoutOne(t: seq<real>, i: nat)
    requires i < |t|
    ensures multiset(t[..i] + t[i + 1..]) == multiset(t) - multiset{t[i]}
  {
    assert t == t[..i] + [t[i]] + t[i + 1..];
  }

  lemma {:induction false} CountOfArrangement(s: seq<real>, t: seq<real>, b: Bound)
    requires multiset(s) == multiset(t)
    ensures CountCovered(s, b) == CountCovered(t, b) && |s| == |t|
    decreases |s|
  {
    if s == [] {
      assert |multiset(t)| == 0;
    } else {
      assert s[0] in multiset(t);
      var i :| 0 <= i < |t| && t[i] == s[0];
      StillArranged(s, t, i);
      CountOfArrangement(s[1..], t[..i] + t[i + 1..], b);
      CountWithout(t, i, b);
    }
  }

  lemma WithoutFirst(s: seq<real>)
    requires s != []
    ensures multiset(s[1..]) == multiset(s) - multiset{s[0]}
  {
    assert s == [s[0]] + s[1..];
  }

  lemma StillArranged(s: seq<real>, t: seq<real>, i: nat)
    requires multiset(s) == multiset(t) && s != [] && i < |t| && t[i] == s[0]
    ensures multiset(s[1..]) == multiset(t[..i] + t[i + 1..])
  {
    WithoutOne(t, i);
    WithoutFirst(s);
  }

  lemma {:induction false} CountBounds(s: seq<real>, b: Bound)
    ensures CountCovered(s, b) <= |s|
    ensures b.Inf? ==> CountCovered(s, b) == |s|
  {
    if s != [] { CountBounds(s[1..], b); }
  }

  // In an ascending sequence, at least k elements are covered exactly when the k-th one is.
  lemma {:induction false} CountReaches(t: seq<real>, b: Bound, k: int)
    requires IsAscending(t) && 1 <= k <= |t|
    ensures CountCovered(t, b) >= k <==> Covers(b, t[k - 1])
    decreases |t|
  {
    CountBounds(t[1..], b);
    if k == 1 {
      if !Covers(b, t[0]) { NoneCovered(t, b); }
    } else if Covers(b, t[0]) {
      CountReaches(t[1..], b, k - 1);
    } else {
      NoneCovered(t, b);
    }
  }

  lemma {:induction false} NoneCovered(t: seq<real>, b: Bound)
    requires IsAscending(t) && (t != [] ==> !Covers(b, t[0]))
    ensures CountCovered(t, b) == 0
  {
    if t != [] { NoneCovered(t[1..], b); }
  }

  // ------------------------------------------------------ what the answer means

  lemma {:induction false} FirstReachingIs(buckets: seq<Bucket>, rank: int)
    ensures var i := FirstReaching(buckets, rank);
            && i <= |buckets|
            && (forall j | 0 <= j < i :: buckets[j].cum < rank as real)
            && (i < |buckets| ==> buckets[i].cum >= rank as real)
  {
    if buckets != [] && buckets[0].cum < rank as real {
      FirstReachingIs(buckets[1..], rank);
      assert forall j | 0 < j < FirstReaching(buckets, rank) :: buckets[j] == buckets[1..][j - 1];
    }
  }

  lemma {:induction false} MaxCumIs(buckets: seq<Bucket>)
    requires buckets != []
    ensures forall i | 0 <= i < |buckets| :: buckets[i].cum <= MaxCum(buckets)
    ensures exists i | 0 <= i < |buckets| :: buckets[i].cum == MaxCum(buckets)
  {
    if |buckets| > 1 {
      MaxCumIs(buckets[1..]);
      assert forall i | 0 < i < |buckets| :: buckets[i] == buckets[1..][i - 1];
      var i :| 0 <= i < |buckets[1..]| && buckets[1..][i].cum == MaxCum(buckets[1..]);
      assert buckets[i + 1].cum == MaxCum(buckets[1..]);
      assert buckets[0].cum <= MaxCum(buckets);
    } else {
      assert buckets[0].cum == MaxCum(buckets);
    }
  }

  lemma FilledTotal(ladder: seq<Bound>, samples: seq<real>)
    requires IsLadder(ladder)
    ensures MaxCum(Fill(ladder, samples)) == |samples| as real
  {
    var buckets := Fill(ladder, samples);
    MaxCumIs(buckets);
    forall i | 0 <= i < |ladder| ensures buckets[i].cum <= |samples| as real { CountBounds(samples, ladder[i]); }
    CountBounds(samples, Inf);
    assert buckets[|ladder| - 1].cum == |samples| as real;
  }

  lemma RankInRange(q: real, n: nat)
    requires 0.0 < q <= 1.0 && n > 0
    ensures 1 <= Rank(q, n as real) <= n
  {
    ScaleMonotone(q, 1.0, n as real);
    CeilMonotone(q * n as real, n as real);
  }

  // MAIN RESULT: conservative and tight.  For samples bucketed on any ascending ladder ending
  // in +Inf and 0 < q <= 1, the answer is the least bound that covers the exact ceil(q*n)-th
  // smallest sample: it covers it, and every lower bound of the ladder falls short of it.
  lemma QuantileIsLeastCover(ladder: seq<Bound>, samples: seq<real>, sorted: seq<real>, q: real) returns (i: nat)
    requires IsLadder(ladder) && Arranges(sorted, samples) && samples != [] && 0.0 < q <= 1.0
    ensures var rank := Rank(q, |samples| as real);
            && 1 <= rank <= |sorted| == |samples|
            && i < |ladder| && Quantile(Fill(ladder, samples), q) == Some(ladder[i])
            && Covers(ladder[i], sorted[rank - 1])
            && forall j | 0 <= j < i :: !Covers(ladder[j], sorted[rank - 1])
  {
    var buckets := Fill(ladder, samples);
    var rank := Rank(q, |samples| as real);
    FilledTotal(ladder, samples);
    RankInRange(q, |samples|);
    CountOfArrangement(sorted, samples, Inf);
    forall j | 0 <= j < |ladder|
      ensures buckets[j].cum >= rank as real <==> Covers(ladder[j], sorted[rank - 1])
    {
      CountOfArrangement(sorted, samples, ladder[j]);
      CountReaches(sorted, ladder[j], rank);
    }
    FirstReachingIs(buckets, rank);
    i := FirstReaching(buckets, rank);
    assert buckets[|ladder| - 1].cum >= rank as real;
  }

  lemma RankMonotone(q: real, q': real, n: nat)
    requires q <= q'
    ensures Rank(q, n as real) <= Rank(q', n as real)
  {
    ScaleMonotone(q, q', n as real);
    CeilMonotone(q * n as real, q' * n as real);
  }

  lemma ScaleMonotone(a: real, b: real, k: real)
    requires a <= b && k >= 0.0
    ensures a * k <= b * k
  {
    assert (b - a) * k >= 0.0;
  }

  lemma CeilMonotone(x: real, y: real)
    requires x <= y
    ensures Ceil(x) <= Ceil(y)
  {
  }

  lemma {:induction false} FirstReachingMonotone(buckets: seq<Bucket>, r: int, r': int)
    requires r <= r'
    ensures FirstReaching(buckets, r) <= FirstReaching(buckets, r')
  {
    if buckets != [] { FirstReachingMonotone(buckets[1..], r, r'); }
  }

  // A larger q never reads a lower bound.
  lemma QuantileMonotone(ladder: seq<Bound>, samples: seq<real>, q: real, q': real)
    requires IsLadder(ladder) && samples != [] && 0.0 < q <= q' <= 1.0
    ensures var a, b := Quantile(Fill(ladder, samples), q), Quantile(Fill(ladder, samples), q');
            a.Some? && b.Some? && !Below(b.value, a.value)
  {
    var buckets, n := Fill(ladder, samples), |samples|;
    FilledTotal(ladder, samples);
    RankMonotone(q, q', n);
    var i, i' := FirstReaching(buckets, Rank(q, n as real)), FirstReaching(buckets, Rank(q', n as real));
    FirstReachingMonotone(buckets, Rank(q, n as real), Rank(q', n as real));
    FirstReachingIs(buckets, Rank(q', n as real));
    RankInRange(q', n);
    CountBounds(samples, Inf);
    assert buckets[|ladder| - 1].cum == n as real;
    assert i' < |ladder|;
  }

  // The rank is the least one from 1 on that is not below the q-th share of the samples.
  lemma RankIs(q: real, total: real, k: int)
    ensures Rank(q, total) <= k <==> 1 <= k && q * total <= k as real
  {
  }

  lemma {:induction false} MaxCumPositive(buckets: seq<Bucket>)
    requires buckets != []
    ensures MaxCum(buckets) > 0.0 <==> exists i | 0 <= i < |buckets| :: buckets[i].cum > 0.0
  {
    if |buckets| > 1 {
      MaxCumPositive(buckets[1..]);
      assert forall i | 0 < i < |buckets| :: buckets[i] == buckets[1..][i - 1];
    }
  }

  // Bucket i is the first whose count reaches the rank.
  ghost predicate FirstAt(buckets: seq<Bucket>, rank: int, i: nat) {
    i < |buckets| && buckets[i].cum >= rank as real && forall j | 0 <= j < i :: buckets[j].cum < rank as real
  }

  lemma FirstIsReached(buckets: seq<Bucket>, rank: int)
    ensures var f := FirstReaching(buckets, rank);
            && (forall i: nat | FirstAt(buckets, rank, i) :: i == f)
            && (f < |buckets| <==> FirstAt(buckets, rank, f)) && f <= |buckets|
  {
    FirstReachingIs(buckets, rank);
  }

  // On any buckets whatever: no answer exactly when none has counted a sample; otherwise the bound of the first bucket
  // that reaches the rank, and of the last bucket when none does.
  lemma QuantileOfAny(buckets: seq<Bucket>, q: real)
    ensures Quantile(buckets, q) == None <==> forall i | 0 <= i < |buckets| :: buckets[i].cum <= 0.0
    ensures Quantile(buckets, q).Some? ==>
              var rank := Rank(q, MaxCum(buckets));
              && (forall i: nat | FirstAt(buckets, rank, i) :: Quantile(buckets, q) == Some(buckets[i].le))
              && ((forall i: nat :: !FirstAt(buckets, rank, i)) ==>
                    Quantile(buckets, q) == Some(buckets[|buckets| - 1].le))
  {
    if buckets != [] {
      MaxCumPositive(buckets);
      FirstIsReached(buckets, Rank(q, MaxCum(buckets)));
    }
  }
}
