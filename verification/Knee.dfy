/**
The edge-saturation ladder: which rung is called the knee, when the client hosts
forbid calling one, and what the attributed ceiling is read from.
 */
module Knee {
  import opened Options

  // One rung: client count, whether it is a reference rung, aggregate rate, client-host CPU
  // readings and the edge process's CPU, each absent when it was not sampled.
  datatype Rung = Rung(n: int, reference: bool, agg: Option<real>, clients: seq<Option<real>>, edge: Option<real>)

  datatype Verdict = ClientBound | KneeFound | NoKnee

  // `ceiling` is the rung the ratio is quoted from, `attribution` the one the bottleneck is read off.
  datatype Reading = Reading(verdict: Verdict, clientBoundFrom: Option<int>, knee: Option<Rung>,
                             ceiling: Option<Rung>, attribution: Option<Rung>)

  const HOST_SAT_PCT: real := 85.0
  const EDGE_CORE_SAT_PCT: real := 90.0
  const GAIN: real := 0.15

  predicate ClientSaturated(p: Rung) {
    exists i | 0 <= i < |p.clients| :: p.clients[i].Some? && p.clients[i].value >= HOST_SAT_PCT
  }

  predicate EdgeSaturated(p: Rung) {
    p.edge.Some? && p.edge.value >= EDGE_CORE_SAT_PCT
  }

  // The client host ran out while the edge did not: the rung says nothing about the edge.
  predicate Tainted(p: Rung) {
    ClientSaturated(p) && !EdgeSaturated(p)
  }

  // An aggregate was measured and is not zero.
  predicate Usable(p: Rung) {
    p.agg.Some? && p.agg.value != 0.0
  }

  function Filter(ps: seq<Rung>, keep: Rung -> bool): seq<Rung> {
    if ps == [] then [] else (if keep(ps[0]) then [ps[0]] else []) + Filter(ps[1..], keep)
  }

  lemma {:induction false} FilterIs(ps: seq<Rung>, keep: Rung -> bool)
    ensures forall p :: p in Filter(ps, keep) <==> p in ps && keep(p)
  {
    if ps != [] {
      FilterIs(ps[1..], keep);
      assert ps == [ps[0]] + ps[1..];
    }
  }

  function Ladder(points: seq<Rung>): seq<Rung> {
    Filter(points, (p: Rung) => !p.reference)
  }

  // The lowest rung number among the tainted rungs.
  function LowestTainted(ladder: seq<Rung>): Option<int> {
    if ladder == [] then None
    else
      var rest := LowestTainted(ladder[1..]);
      if !Tainted(ladder[0]) then rest
      else if rest.Some? && rest.value < ladder[0].n then rest
      else Some(ladder[0].n)
  }

  function Clean(ladder: seq<Rung>): seq<Rung> {
    var from := LowestTainted(ladder);
    Filter(ladder, (p: Rung) => from.None? || p.n < from.value)
  }

  // The usable rung with the largest aggregate, the first of equals.
  function Best(ps: seq<Rung>): Option<Rung> {
    if ps == [] then None
    else
      var rest := Best(ps[1..]);
      if !Usable(ps[0]) then rest
      else if rest.Some? && Usable(rest.value) && rest.value.agg.value > ps[0].agg.value then rest
      else Some(ps[0])
  }

  // The gain of `cur` over `prev` is below the knee gain.
  predicate Flattens(prev: Rung, cur: Rung)
    requires Usable(prev) && Usable(cur)
  {
    (cur.agg.value - prev.agg.value) / prev.agg.value < GAIN
  }

  // Every rung's aggregate is a sum of non-negative rates.
  ghost predicate AreRates(ps: seq<Rung>) {
    forall i | 0 <= i < |ps| :: ps[i].agg.Some? ==> ps[i].agg.value >= 0.0
  }

  // The usable rungs, in ladder order.
  function UsableOf(ps: seq<Rung>): (us: seq<Rung>)
    ensures forall i | 0 <= i < |us| :: us[i] in ps && Usable(us[i])
    ensures forall p | p in ps :: p in us <==> p.agg != None && p.agg != Some(0.0)
  {
    var us := Filter(ps, (p: Rung) => Usable(p));
    FilterIs(ps, (p: Rung) => Usable(p));
    assert forall i | 0 <= i < |us| :: us[i] in us;
    assert forall p | p in ps :: p in us <==> Usable(p);
    us
  }

  // The index in `usable` of the first rung that flattens, or |usable|.
  function KneeIndex(usable: seq<Rung>, i: nat): nat
    requires 1 <= i && forall k | 0 <= k < |usable| :: Usable(usable[k])
    decreases |usable| - i
  {
    if i >= |usable| then |usable| else if Flattens(usable[i - 1], usable[i]) then i else KneeIndex(usable, i + 1)
  }

  function KneeOf(ps: seq<Rung>): Option<Rung> {
    var usable := UsableOf(ps);
    var k := KneeIndex(usable, 1);
    if k < |usable| then Some(usable[k]) else None
  }

  method SelectKnee(ps: seq<Rung>) returns (knee: Option<Rung>, prev: Option<Rung>, gain: Option<real>)
    ensures knee == KneeOf(ps)
    ensures knee.Some? == prev.Some?
    ensures knee.Some? ==>
              var us, k := UsableOf(ps), KneeIndex(UsableOf(ps), 1);
              && 1 <= k < |us| && knee.value == us[k] && prev.value == us[k - 1] && Flattens(us[k - 1], us[k])
              && gain.Some? && us[k].agg.value == us[k - 1].agg.value + gain.value * us[k - 1].agg.value
              && forall j | 0 <= j < k - 1 :: !Flattens(us[j], us[j + 1])
  {
    var usable := UsableOf(ps);
    var i := 1;
    while i < |usable|
      invariant 1 <= i && KneeIndex(usable, 1) == KneeIndex(usable, i)
      invariant i <= |usable| || |usable| == 0
      invariant forall j | 0 <= j < i - 1 && j + 1 < |usable| :: !Flattens(usable[j], usable[j + 1])
    {
      if Flattens(usable[i - 1], usable[i]) {
        var before, now := usable[i - 1].agg.value, usable[i].agg.value;
        return Some(usable[i]), Some(usable[i - 1]), Some((now - before) / before);
      }
      i := i + 1;
    }
    return None, None, None;
  }

  function Classify(points: seq<Rung>): Reading {
    var ladder := Ladder(points);
    var from, clean := LowestTainted(ladder), Clean(ladder);
    var knee := KneeOf(clean);
    if from.Some? then Reading(ClientBound, from, knee, Best(clean), FirstNumbered(ladder, from.value))
    else if knee.Some? then Reading(KneeFound, from, knee, knee, knee)
    else Reading(NoKnee, from, knee, Best(ladder), Best(ladder))
  }

  function FirstNumbered(ladder: seq<Rung>, n: int): Option<Rung> {
    if ladder == [] then None else if ladder[0].n == n then Some(ladder[0]) else FirstNumbered(ladder[1..], n)
  }

  // ----------------------------------------------------------- no manufactured knee

  lemma {:induction false} LowestTaintedIs(ladder: seq<Rung>)
    ensures LowestTainted(ladder).None? <==> forall p | p in ladder :: !Tainted(p)
    ensures LowestTainted(ladder).Some? ==> forall p | p in ladder && Tainted(p) :: p.n >= LowestTainted(ladder).value
  {
    if ladder != [] {
      LowestTaintedIs(ladder[1..]);
      assert ladder == [ladder[0]] + ladder[1..] && ladder[0] in ladder;
    }
  }

  lemma {:induction false} BestIs(ps: seq<Rung>)
    ensures Best(ps).Some? ==> Best(ps).value in ps && Usable(Best(ps).value)
    ensures forall p | p in ps && Usable(p) :: Best(ps).Some? && p.agg.value <= Best(ps).value.agg.value
  {
    if ps != [] {
      BestIs(ps[1..]);
      assert ps == [ps[0]] + ps[1..];
    }
  }

  // MAIN RESULT.  A knee is called only when no ladder rung was tainted, and the rung the ceiling is
  // quoted from is always a usable, untainted ladder rung; a client-bound ceiling is the best aggregate
  // among the clean rungs.
  lemma NoManufacturedKnee(points: seq<Rung>)
    ensures var r := Classify(points);
            && (r.verdict == KneeFound ==> forall p | p in points && !p.reference :: !Tainted(p))
            && (r.verdict == ClientBound <==> exists p | p in points :: !p.reference && Tainted(p))
            && (r.ceiling.Some? ==>
                  && r.ceiling.value in points && !r.ceiling.value.reference
                  && Usable(r.ceiling.value) && !Tainted(r.ceiling.value))
            && (r.verdict == ClientBound ==> forall p | p in Clean(Ladder(points)) && Usable(p) ::
                  r.ceiling.Some? && r.ceiling.value.agg.Some? && p.agg.value <= r.ceiling.value.agg.value)
  {
    var ladder := Ladder(points);
    FilterIs(points, (p: Rung) => !p.reference);
    LowestTaintedIs(ladder);
    var from := LowestTainted(ladder);
    FilterIs(ladder, (p: Rung) => from.None? || p.n < from.value);
    BestIs(Clean(ladder));
    BestIs(ladder);
  }

  // ----------------------------------------------------------- what every verdict means

  // Filtering goes rung by rung and keeps the order.
  lemma {:induction false} FilterConcat(a: seq<Rung>, b: seq<Rung>, keep: Rung -> bool)
    ensures Filter(a + b, keep) == Filter(a, keep) + Filter(b, keep)
  {
    if a == [] {
      assert a + b == b;
    } else {
      assert (a + b)[1..] == a[1..] + b;
      FilterConcat(a[1..], b, keep);
    }
  }

  // A rung flattens exactly when it carries less than 1.15 times the one before it.
  lemma FlattensIff(prev: Rung, cur: Rung)
    requires Usable(prev) && Usable(cur) && prev.agg.value > 0.0
    ensures Flattens(prev, cur) <==> cur.agg.value < 1.15 * prev.agg.value
  {
    var x, y := prev.agg.value, cur.agg.value;
    var g := (y - x) / x;
    assert g * x == y - x;
    if g < GAIN { assert (GAIN - g) * x > 0.0; } else { assert (g - GAIN) * x >= 0.0; }
  }

  // The highest client-host reading that was sampled.
  function HighestSampled(clients: seq<Option<real>>): Option<real> {
    if clients == [] then None
    else
      var rest := HighestSampled(clients[1..]);
      match clients[0]
      case None => rest
      case Some(x) => if rest.Some? && rest.value > x then rest else Some(x)
  }

  lemma {:induction false} HighestIs(clients: seq<Option<real>>, bar: real)
    ensures var h := HighestSampled(clients);
            h.Some? && h.value >= bar <==> exists i | 0 <= i < |clients| :: clients[i].Some? && clients[i].value >= bar
  {
    if clients != [] {
      HighestIs(clients[1..], bar);
      assert forall i | 0 < i < |clients| :: clients[i] == clients[1..][i - 1];
    }
  }

  // A rung is tainted exactly when the busiest sampled client host is at 85 percent and the edge process was not seen
  // at 90.
  lemma TaintedIff(p: Rung)
    ensures Tainted(p) <==>
            && HighestSampled(p.clients).Some? && HighestSampled(p.clients).value >= 85.0
            && (p.edge.Some? ==> p.edge.value < 90.0)
  {
    HighestIs(p.clients, 85.0);
  }

  // The clean rungs are the ladder's rungs numbered below every tainted one.
  lemma CleanIs(ladder: seq<Rung>)
    ensures forall p :: p in Clean(ladder) <==> p in ladder && forall t | t in ladder && Tainted(t) :: p.n < t.n
  {
    var from := LowestTainted(ladder);
    LowestTaintedIs(ladder);
    LowestIsTainted(ladder);
    FilterIs(ladder, (p: Rung) => from.None? || p.n < from.value);
  }

  lemma {:induction false} LowestIsTainted(ladder: seq<Rung>)
    ensures LowestTainted(ladder).Some? ==> exists p | p in ladder :: Tainted(p) && p.n == LowestTainted(ladder).value
  {
    if ladder != [] {
      LowestIsTainted(ladder[1..]);
      assert ladder[0] in ladder && forall p | p in ladder[1..] :: p in ladder;
    }
  }

  // The rung at k is usable, no usable one carries more, and none before it as much.
  ghost predicate BestAt(ps: seq<Rung>, k: nat) {
    && k < |ps| && Usable(ps[k])
    && (forall i | 0 <= i < |ps| && Usable(ps[i]) :: ps[i].agg.value <= ps[k].agg.value)
    && forall i | 0 <= i < k && Usable(ps[i]) :: ps[i].agg.value < ps[k].agg.value
  }

  ghost predicate IsBest(ps: seq<Rung>, best: Option<Rung>) {
    match best
    case None => forall i | 0 <= i < |ps| :: !Usable(ps[i])
    case Some(p) => exists k: nat :: BestAt(ps, k) && ps[k] == p
  }

  lemma {:induction false} BestIsBest(ps: seq<Rung>)
    ensures IsBest(ps, Best(ps))
  {
    if ps != [] {
      var rest := ps[1..];
      BestIsBest(rest);
      assert forall i | 0 <= i < |rest| :: rest[i] == ps[i + 1];
      if Best(rest).Some? {
        var k: nat :| BestAt(rest, k) && rest[k] == Best(rest).value;
        if Best(ps) == Best(rest) && !(Usable(ps[0]) && rest[k].agg.value <= ps[0].agg.value) {
          assert BestAt(ps, k + 1) && ps[k + 1] == Best(ps).value;
        } else {
          assert BestAt(ps, 0) && ps[0] == Best(ps).value;
        }
      } else if Usable(ps[0]) {
        assert BestAt(ps, 0) && ps[0] == Best(ps).value;
      }
    }
  }

  // The k-th usable rung is the first one that flattens.
  ghost predicate FirstFlat(us: seq<Rung>, k: nat)
    requires forall i | 0 <= i < |us| :: Usable(us[i])
  {
    1 <= k < |us| && Flattens(us[k - 1], us[k]) && forall j | 1 <= j < k :: !Flattens(us[j - 1], us[j])
  }

  lemma KneeOfIs(ps: seq<Rung>)
    ensures var us := UsableOf(ps);
            && (KneeOf(ps).Some? <==> exists k: nat :: FirstFlat(us, k))
            && forall k: nat | FirstFlat(us, k) :: KneeOf(ps) == Some(us[k])
  {
    var us := UsableOf(ps);
    KneeIndexIs(us, 1);
    var f := KneeIndex(us, 1);
    if f < |us| {
      KneeFlattens(us, 1);
      assert FirstFlat(us, f);
      forall k: nat | FirstFlat(us, k) ensures k == f {}
    } else {
      forall k: nat ensures !FirstFlat(us, k) {}
    }
  }

  lemma {:induction false} KneeFlattens(us: seq<Rung>, i: nat)
    requires 1 <= i && forall k | 0 <= k < |us| :: Usable(us[k])
    ensures var f := KneeIndex(us, i); f <= |us| && (f < |us| ==> 1 <= f && Flattens(us[f - 1], us[f]))
    decreases |us| - i
  {
    if i < |us| && !Flattens(us[i - 1], us[i]) { KneeFlattens(us, i + 1); }
  }

  // MAIN RESULT.  What each verdict and each quoted rung is.  Client-bound: some ladder rung is tainted, and the
  // ratio is quoted from the best clean rung.  A knee: none is, some usable rung flattens, and the first that does
  // is quoted.  No knee: none is and none does, and the best rung is quoted.
  lemma ClassifyIs(points: seq<Rung>)
    ensures var r, ladder := Classify(points), Ladder(points);
            var us := UsableOf(Clean(ladder));
            && (r.verdict == ClientBound <==> exists p | p in ladder :: Tainted(p))
            && (r.verdict == KneeFound <==>
                  (forall p | p in ladder :: !Tainted(p)) && exists k: nat :: FirstFlat(us, k))
            && (forall k: nat | FirstFlat(us, k) :: r.knee == Some(us[k]))
            && (r.verdict == ClientBound ==> IsBest(Clean(ladder), r.ceiling))
            && (r.verdict == KneeFound ==> r.ceiling == r.attribution == r.knee)
            && (r.verdict == NoKnee ==> IsBest(ladder, r.ceiling) && r.attribution == r.ceiling)
  {
    var ladder := Ladder(points);
    LowestTaintedIs(ladder);
    KneeOfIs(Clean(ladder));
    BestIsBest(Clean(ladder));
    BestIsBest(ladder);
  }

  lemma {:induction false} FirstNumberedIs(ladder: seq<Rung>, n: int)
    requires exists p | p in ladder :: p.n == n
    ensures FirstNumbered(ladder, n).Some? && FirstNumbered(ladder, n).value in ladder
    ensures FirstNumbered(ladder, n).value.n == n
  {
    if ladder[0].n != n {
      var p :| p in ladder && p.n == n;
      assert p in ladder[1..];
      FirstNumberedIs(ladder[1..], n);
    }
  }

  // No two rungs of a ladder have one number.
  ghost predicate DistinctNumbers(ladder: seq<Rung>) {
    forall p, q | p in ladder && q in ladder :: p.n == q.n ==> p == q
  }

  // A client-bound verdict names the lowest tainted number, and its bottleneck is read off a rung with that number:
  // the tainted one, when numbers are distinct.
  lemma ClientBoundIs(points: seq<Rung>)
    requires Classify(points).verdict == ClientBound
    ensures var r, ladder := Classify(points), Ladder(points);
            && r.clientBoundFrom.Some? && r.attribution.Some? && r.attribution.value in ladder
            && r.attribution.value.n == r.clientBoundFrom.value
            && (forall p | p in ladder && Tainted(p) :: r.clientBoundFrom.value <= p.n)
            && (exists p | p in ladder :: Tainted(p) && p.n == r.clientBoundFrom.value)
            && (DistinctNumbers(ladder) ==> Tainted(r.attribution.value))
  {
    var ladder := Ladder(points);
    LowestTaintedIs(ladder);
    LowestIsTainted(ladder);
    FirstNumberedIs(ladder, LowestTainted(ladder).value);
  }

  // ------------------------------------------------------------------- before the knee

  // 1.15 to the power k.
  function Growth(k: nat): real {
    if k == 0 then 1.0 else (1.0 + GAIN) * Growth(k - 1)
  }

  lemma {:induction false} KneeIndexIs(usable: seq<Rung>, i: nat)
    requires 1 <= i && forall k | 0 <= k < |usable| :: Usable(usable[k])
    ensures forall k | i <= k < KneeIndex(usable, i) && k < |usable| :: !Flattens(usable[k - 1], usable[k])
    ensures KneeIndex(usable, i) < |usable| ==> i <= KneeIndex(usable, i)
    decreases |usable| - i
  {
    if i < |usable| && !Flattens(usable[i - 1], usable[i]) { KneeIndexIs(usable, i + 1); }
  }

  lemma KeepsClimbing(prev: Rung, cur: Rung)
    requires Usable(prev) && Usable(cur) && prev.agg.value > 0.0 && !Flattens(prev, cur)
    ensures cur.agg.value >= (1.0 + GAIN) * prev.agg.value
  {
    var x, y := prev.agg.value, cur.agg.value;
    var g := (y - x) / x;
    assert g * x == y - x;
    assert (g - GAIN) * x >= 0.0;
  }

  lemma {:induction false} ClimbsUpTo(usable: seq<Rung>, k: nat)
    requires (forall i | 0 <= i < |usable| :: Usable(usable[i])) && AreRates(usable)
    requires k < |usable| && k < KneeIndex(usable, 1)
    ensures usable[k].agg.value >= Growth(k) * usable[0].agg.value && usable[k].agg.value > 0.0
  {
    if k > 0 {
      ClimbsUpTo(usable, k - 1);
      KneeIndexIs(usable, 1);
      KeepsClimbing(usable[k - 1], usable[k]);
      Compounds(Growth(k - 1), usable[0].agg.value, usable[k - 1].agg.value, usable[k].agg.value);
    }
  }

  lemma Compounds(g: real, first: real, prev: real, cur: real)
    requires prev >= g * first && cur >= (1.0 + GAIN) * prev
    ensures cur >= (1.0 + GAIN) * g * first
  {
    assert (1.0 + GAIN) * (g * first) == (1.0 + GAIN) * g * first;
  }

  // MAIN RESULT.  Before the knee, or throughout when none is found, the k-th usable clean rung carries at
  // least 1.15^k times the first one's aggregate.
  lemma ClimbsBeforeTheKnee(points: seq<Rung>, k: nat)
    requires AreRates(points)
    requires k < |UsableOf(Clean(Ladder(points)))| && k < KneeIndex(UsableOf(Clean(Ladder(points))), 1)
    ensures var us := UsableOf(Clean(Ladder(points))); us[k].agg.value >= Growth(k) * us[0].agg.value
  {
    var clean := Clean(Ladder(points));
    CleanIsGiven(points);
    RatesOf(points, clean);
    ClimbsUpTo(UsableOf(clean), k);
  }

  lemma CleanIsGiven(points: seq<Rung>)
    ensures forall p | p in Clean(Ladder(points)) :: p in points
  {
    var ladder := Ladder(points);
    var from := LowestTainted(ladder);
    FilterIs(points, (p: Rung) => !p.reference);
    FilterIs(ladder, (p: Rung) => from.None? || p.n < from.value);
  }

  lemma RatesOf(points: seq<Rung>, ps: seq<Rung>)
    requires AreRates(points) && forall p | p in ps :: p in points
    ensures AreRates(UsableOf(ps))
  {
    var us := UsableOf(ps);
    forall i | 0 <= i < |us| ensures us[i].agg.value >= 0.0 {
      assert us[i] in points;
    }
  }
}
