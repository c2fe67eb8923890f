/**
The commit sampler: each tick folds what the surviving nodes answered into one sample, and
ticks nobody or not everybody answered are counted apart.
 */
module CommitSampler {
  import opened Options
  import opened CommitStall

  // The highest position answered, if any observer answered.
  function Highest(vals: seq<Option<int>>): Option<int> {
    if vals == [] then None
    else
      var rest := Highest(vals[1..]);
      if vals[0].None? then rest
      else if rest.None? || rest.value < vals[0].value then vals[0]
      else rest
  }

  function FoldTick(t: real, vals: seq<Option<int>>): Option<Sample> {
    var h := Highest(vals);
    if h.None? then None else Some(Sample(t, h.value))
  }

  // A tick yields a sample exactly when somebody answered, and it is the highest answer.
  lemma {:induction false} FoldIsHighest(t: real, vals: seq<Option<int>>)
    ensures FoldTick(t, vals).None? <==> forall i | 0 <= i < |vals| :: vals[i].None?
    ensures FoldTick(t, vals).Some? ==>
              && FoldTick(t, vals).value.t == t && Some(FoldTick(t, vals).value.p) in vals
              && forall i | 0 <= i < |vals| && vals[i].Some? :: vals[i].value <= FoldTick(t, vals).value.p
  {
    if vals != [] {
      FoldIsHighest(t, vals[1..]);
      assert vals == [vals[0]] + vals[1..];
    }
  }

  class CommitSampler {
    var samples: seq<Sample>
    var skipped: nat
    var partial: nat
    ghost var ticks: nat

    // Every tick is a sample or a skip, and only samples can be partial.
    ghost predicate Valid()
      reads this
    {
      |samples| + skipped == ticks && partial <= |samples|
    }

    constructor ()
      ensures Valid() && samples == [] && skipped == 0 && partial == 0 && ticks == 0
    {
      samples, skipped, partial, ticks := [], 0, 0, 0;
    }

    method Tick(t: real, vals: seq<Option<int>>)
      requires Valid()
      modifies this
      ensures Valid() && ticks == old(ticks) + 1
      ensures (forall i | 0 <= i < |vals| :: vals[i].None?) ==> samples == old(samples) && skipped == old(skipped) + 1
      ensures (exists i | 0 <= i < |vals| :: vals[i].Some?) ==>
                && |samples| == old(|samples|) + 1 && samples[..|samples| - 1] == old(samples)
                && FoldTick(t, vals) == Some(samples[|samples| - 1]) && skipped == old(skipped)
      ensures partial == old(partial) + if FoldTick(t, vals).Some? && None in vals then 1 else 0
    {
      FoldIsHighest(t, vals);
      var sample := FoldTick(t, vals);
      if sample.None? {
        skipped := skipped + 1;
      } else {
        if None in vals { partial := partial + 1; }
        samples := samples + [sample.value];
      }
      ticks := ticks + 1;
    }
  }

  // ------------------------------------------------------------- silent observers

  // Losing answers on an interior tick whose full sample set no new high changes no stall.
  lemma PartialTickIsInert(before: seq<Sample>, full: Sample, part: Sample, next: Sample, after: seq<Sample>)
    requires before != [] && full.t == part.t <= next.t && part.p <= full.p <= High(before, |before| - 1)
    ensures Stall(before + [part, next] + after) == Stall(before + [full, next] + after)
  {
    DipIsInert(before, full, next, after);
    DipIsInert(before, part, next, after);
  }

  lemma {:induction false} BestIsNotNegative(s: seq<Sample>)
    requires s != []
    ensures Run(s).best >= 0.0
  {
    if |s| > 1 { BestIsNotNegative(s[..|s| - 1]); }
  }

  lemma RunOfThreeMore(before: seq<Sample>, a: Sample, b: Sample, c: Sample)
    requires before != []
    ensures Run(before + [a, b] + [c]) == Step(Step(Step(Run(before), a), b), c)
  {
    RunSnoc(before, a);
    RunSnoc(before + [a], b);
    assert before + [a] + [b] == before + [a, b];
    RunSnoc(before + [a, b], c);
  }

  // A continuation that tells the two samples apart: the full position is seen once more, and then a long
  // wait that the full sample dates from its own tick and the partial one from the next.
  lemma StallsApart(before: seq<Sample>, full: Sample, part: Sample) returns (next: Sample, after: seq<Sample>)
    requires before != [] && full.t == part.t && (forall k | 0 <= k < |before| :: before[k].t <= full.t)
    requires part.p < full.p && High(before, |before| - 1) < full.p
    ensures full.t <= next.t && Stall(before + [part, next] + after) != Stall(before + [full, next] + after)
  {
    var m := Run(before);
    var _ := MarkIs(before);
    BestIsNotNegative(before);
    var wait := m.best + (full.t - m.since) + 1.0;
    next := Sample(full.t + 1.0, full.p);
    var last := Sample(full.t + 1.0 + wait, full.p);
    after := [last];
    RunOfThreeMore(before, full, next, last);
    RunOfThreeMore(before, part, next, last);
  }

  // MAIN RESULT.  Losing answers on a tick changes no stall, whatever is sampled after it, if and only if the
  // highest answer was kept or the full sample would have set no new high.
  lemma PartialTickIsInertIff(before: seq<Sample>, full: Sample, part: Sample)
    requires before != [] && full.t == part.t && part.p <= full.p
    requires forall k | 0 <= k < |before| :: before[k].t <= full.t
    ensures (forall next: Sample, after: seq<Sample> | full.t <= next.t ::
               Stall(before + [part, next] + after) == Stall(before + [full, next] + after)) <==>
            part.p == full.p || full.p <= High(before, |before| - 1)
  {
    if full.p <= High(before, |before| - 1) {
      forall next: Sample, after: seq<Sample> | full.t <= next.t
        ensures Stall(before + [part, next] + after) == Stall(before + [full, next] + after)
      {
        PartialTickIsInert(before, full, part, next, after);
      }
    } else if part.p < full.p {
      var next, after := StallsApart(before, full, part);
    }
  }

  // Losing them on a tick that would have set one can make a stall look shorter: here 5 seconds read as 3.
  lemma PartialTickCanHideAStall()
    ensures Stall([Sample(0.0, 5), Sample(1.0, 10), Sample(3.0, 10), Sample(6.0, 11)]) == Secs(5.0)
    ensures Stall([Sample(0.0, 5), Sample(1.0, 5), Sample(3.0, 10), Sample(6.0, 11)]) == Secs(3.0)
  {
    RunOfFour(Sample(0.0, 5), Sample(1.0, 10), Sample(3.0, 10), Sample(6.0, 11));
    RunOfFour(Sample(0.0, 5), Sample(1.0, 5), Sample(3.0, 10), Sample(6.0, 11));
  }

  lemma RunOfFour(a: Sample, b: Sample, c: Sample, d: Sample)
    ensures Run([a, b, c, d]) == Step(Step(Step(Mark(0.0, a.t, a.p), b), c), d)
  {
    assert [a, b, c, d][..3] == [a, b, c] && [a, b, c][..2] == [a, b] && [a, b][..1] == [a];
    assert Run([a]) == Mark(0.0, a.t, a.p);
    assert Run([a, b]) == Step(Run([a]), b);
    assert Run([a, b, c]) == Step(Run([a, b]), c);
  }
}
