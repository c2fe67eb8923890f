/**
Debounced detectors over sample streams.  Each is a one-pass loop in the gate
scripts; each is proved to report the EARLIEST confirmed event of its stream.
 */
module Detectors {
  import opened Options

  // ------------------------------------------- two-window recovery (node restart)

  // A probe window: when it ended, and the commit rate it measured.
  datatype Window = Window(end: real, rate: real)

  const FRACTION: real := 0.8

  predicate Qualifies(rate: real, baseline: real) {
    baseline > 0.0 && rate >= FRACTION * baseline
  }

  // Windows i and i+1 both qualify.
  predicate PairAt(ws: seq<Window>, baseline: real, i: nat) {
    i + 1 < |ws| && Qualifies(ws[i].rate, baseline) && Qualifies(ws[i + 1].rate, baseline)
  }

  // The stream `ws` holds the windows measured before the hard deadline.
  method TwoWindowRecovery(ws: seq<Window>, baseline: real) returns (recovered: Option<real>, ghost at: nat)
    ensures recovered.Some? ==> PairAt(ws, baseline, at) && recovered.value == ws[at].end
    ensures recovered.Some? ==> forall i: nat | i < at :: !PairAt(ws, baseline, i)
    ensures recovered.None? ==> forall i: nat | i < |ws| :: !PairAt(ws, baseline, i)
  {
    recovered, at := None, 0;
    var firstEnd: Option<real> := None;
    for n := 0 to |ws|
      invariant firstEnd.Some? <==> n > 0 && Qualifies(ws[n - 1].rate, baseline)
      invariant firstEnd.Some? ==> firstEnd.value == ws[n - 1].end
      invariant forall i: nat | i + 1 < n :: !PairAt(ws, baseline, i)
    {
      var qualifies := Qualifies(ws[n].rate, baseline);
      if qualifies && firstEnd.None? {
        firstEnd := Some(ws[n].end);
      } else if firstEnd.Some? {
        if qualifies {
          at := n - 1;
          return firstEnd, at;
        }
        firstEnd := None;
      }
    }
  }

  // --------------------------------------------------------- single-leader wait

  // What one probe of one voter answered; None when it could not be read.
  datatype Status = Status(leader: bool, canServe: bool)

  predicate IsServing(answer: Option<Status>) {
    answer.Some? && answer.value.leader && answer.value.canServe
  }

  // In this poll, voter v and nobody else was serving.
  ghost predicate OnlyServes(poll: seq<Option<Status>>, v: nat) {
    v < |poll| && forall k | 0 <= k < |poll| :: IsServing(poll[k]) <==> k == v
  }

  // Polls n and n+1 both saw exactly the same single voter serving.
  ghost predicate SameSingleLeader(polls: seq<seq<Option<Status>>>, n: nat, v: nat) {
    n + 1 < |polls| && OnlyServes(polls[n], v) && OnlyServes(polls[n + 1], v)
  }

  method Serving(poll: seq<Option<Status>>) returns (serving: seq<nat>)
    ensures forall k: nat :: k in serving <==> k < |poll| && IsServing(poll[k])
    ensures forall k: nat :: k in serving <==> k < |poll| && poll[k] == Some(Status(true, true))
    ensures Increasing(serving)
  {
    serving := [];
    for i := 0 to |poll|
      invariant forall k: nat :: k in serving <==> k < i && IsServing(poll[k])
      invariant Increasing(serving)
      invariant forall a | 0 <= a < |serving| :: serving[a] < i
    {
      if IsServing(poll[i]) {
        serving := serving + [i];
      }
    }
  }

  ghost predicate Increasing(s: seq<nat>) {
    forall i, j | 0 <= i < j < |s| :: s[i] < s[j]
  }

  lemma TwoDiffer(s: seq<nat>)
    requires Increasing(s)
    ensures |s| >= 2 ==> s[0] in s && s[1] in s && s[0] != s[1]
  {
  }

  lemma SingletonServing(poll: seq<Option<Status>>, serving: seq<nat>)
    requires forall k: nat :: k in serving <==> k < |poll| && IsServing(poll[k])
    requires Increasing(serving)
    ensures |serving| == 1 ==> OnlyServes(poll, serving[0])
    ensures forall v: nat | OnlyServes(poll, v) :: serving == [v]
  {
    if |serving| == 1 {
      assert serving[0] in serving;
      forall k: nat | k < |poll| ensures IsServing(poll[k]) <==> k == serving[0] {
        assert k in serving <==> k == serving[0];
      }
    }
    TwoDiffer(serving);
    forall v: nat | OnlyServes(poll, v) ensures serving == [v] {
      assert v in serving && forall k | k in serving :: k == v;
    }
  }

  lemma DifferentLeaders(polls: seq<seq<Option<Status>>>, n: nat, u: nat, w: nat)
    requires n + 1 < |polls| && OnlyServes(polls[n], u) && OnlyServes(polls[n + 1], w) && u != w
    ensures forall v: nat :: !SameSingleLeader(polls, n, v)
  {
    assert IsServing(polls[n][u]) && IsServing(polls[n + 1][w]);
  }

  ghost predicate NobodyAlone(poll: seq<Option<Status>>) {
    forall v: nat :: !OnlyServes(poll, v)
  }

  // Nobody was the single server of two consecutive polls before poll n.
  ghost predicate NoneBefore(polls: seq<seq<Option<Status>>>, n: nat) {
    forall i: nat, v: nat | i + 1 < n :: !SameSingleLeader(polls, i, v)
  }

  // The stream `polls` holds the polls made before the deadline.
  method WaitSingleLeader(polls: seq<seq<Option<Status>>>) returns (found: Option<nat>, ghost at: nat)
    ensures found.Some? ==> SameSingleLeader(polls, at, found.value) && NoneBefore(polls, at + 1)
    ensures found.None? ==> NoneBefore(polls, |polls|)
  {
    found, at := None, 0;
    var prev: Option<nat> := None;
    for n := 0 to |polls|
      invariant prev.Some? ==> n > 0 && OnlyServes(polls[n - 1], prev.value)
      invariant prev.None? && n > 0 ==> NobodyAlone(polls[n - 1])
      invariant NoneBefore(polls, n)
    {
      var serving := Serving(polls[n]);
      SingletonServing(polls[n], serving);
      if |serving| == 1 {
        if prev == Some(serving[0]) {
          at := n - 1;
          return Some(serving[0]), at;
        }
        if prev.Some? { DifferentLeaders(polls, n - 1, prev.value, serving[0]); }
        prev := Some(serving[0]);
      } else {
        prev := None;
      }
    }
  }

  // ---------------------------------------------------- recovery from a timeline

  // A one-second bucket: its start in Unix milliseconds, and the responses in it.
  datatype Tick = Tick(ms: int, r: int)

  datatype Measured = Measured(end: int, rate: real)

  const WINDOW: nat := 2

  function SumOf(xs: seq<int>): int {
    if xs == [] then 0 else xs[0] + SumOf(xs[1..])
  }

  function BaseRates(tl: seq<Tick>, lo: int, hi: int): seq<int> {
    if tl == [] then [] else (if lo <= tl[0].ms < hi then [tl[0].r] else []) + BaseRates(tl[1..], lo, hi)
  }

  function Baseline(tl: seq<Tick>, lo: int, hi: int): real {
    var base := BaseRates(tl, lo, hi);
    if base == [] then 0.0 else SumOf(base) as real / |base| as real
  }

  // Buckets that end after t0.
  function After(tl: seq<Tick>, t0: int): seq<Tick> {
    if tl == [] then [] else (if tl[0].ms + 1000 > t0 then [tl[0]] else []) + After(tl[1..], t0)
  }

  // Every two-second window over consecutive buckets.
  function Windows(after: seq<Tick>): seq<Measured> {
    seq(if |after| < WINDOW then 0 else |after| - WINDOW + 1,
        i requires 0 <= i < |after| - WINDOW + 1 =>
          Measured(after[i + 1].ms + 1000, (after[i].r + after[i + 1].r) as real / 2.0))
  }

  // Window i qualifies and is confirmed by the disjoint next one.
  predicate ConfirmedAt(ws: seq<Measured>, baseline: real, i: nat) {
    i + WINDOW < |ws| && Qualifies(ws[i].rate, baseline) && Qualifies(ws[i + WINDOW].rate, baseline)
  }

  // The earliest confirmed window at or after i, or |ws|.
  function FirstConfirmed(ws: seq<Measured>, baseline: real, i: nat): nat
    decreases |ws| - i
  {
    if i >= |ws| then |ws| else if ConfirmedAt(ws, baseline, i) then i else FirstConfirmed(ws, baseline, i + 1)
  }

  function Recovery(tl: seq<Tick>, t0: int, lo: int, hi: int): Option<real> {
    var ws := Windows(After(tl, t0));
    var i := FirstConfirmed(ws, Baseline(tl, lo, hi), 0);
    if i < |ws| then Some((ws[i].end - t0) as real / 1000.0) else None
  }

  lemma {:induction false} FirstConfirmedIs(ws: seq<Measured>, baseline: real, i: nat)
    requires i <= |ws|
    ensures var f := FirstConfirmed(ws, baseline, i);
            && i <= f <= |ws| && (f < |ws| ==> ConfirmedAt(ws, baseline, f))
            && forall k: nat | i <= k < f :: !ConfirmedAt(ws, baseline, k)
    decreases |ws| - i
  {
    if i < |ws| && !ConfirmedAt(ws, baseline, i) { FirstConfirmedIs(ws, baseline, i + 1); }
  }

  // `recovered` reports the earliest confirmed window, and is None exactly when there is none.
  ghost predicate ReportsEarliest(ws: seq<Measured>, baseline: real, t0: int, recovered: Option<real>) {
    match recovered
    case None => forall i: nat | i < |ws| :: !ConfirmedAt(ws, baseline, i)
    case Some(secs) =>
      exists i: nat | ConfirmedAt(ws, baseline, i) ::
        && secs == (ws[i].end - t0) as real / 1000.0
        && forall k: nat | k < i :: !ConfirmedAt(ws, baseline, k)
  }

  method MeasureWindows(after: seq<Tick>) returns (windows: seq<Measured>)
    ensures windows == Windows(after)
  {
    windows := [];
    var n := 0;
    while n + WINDOW <= |after|
      invariant |windows| == n && (n == 0 || n <= |after| - WINDOW + 1)
      invariant forall k | 0 <= k < n :: windows[k] == Windows(after)[k]
    {
      windows := windows + [Measured(after[n + 1].ms + 1000, (after[n].r + after[n + 1].r) as real / 2.0)];
      n := n + 1;
    }
  }

  method FirstRecovered(windows: seq<Measured>, baseline: real, t0: int) returns (recovered: Option<real>)
    ensures var i := FirstConfirmed(windows, baseline, 0);
            recovered == if i < |windows| then Some((windows[i].end - t0) as real / 1000.0) else None
    ensures ReportsEarliest(windows, baseline, t0, recovered)
  {
    recovered := None;
    FirstConfirmedIs(windows, baseline, 0);
    var n := 0;
    while n + WINDOW < |windows|
      invariant n == 0 || n + WINDOW <= |windows|
      invariant forall k: nat | k < n :: !ConfirmedAt(windows, baseline, k)
    {
      if Qualifies(windows[n].rate, baseline) && Qualifies(windows[n + WINDOW].rate, baseline) {
        assert ConfirmedAt(windows, baseline, n);
        recovered := Some((windows[n].end - t0) as real / 1000.0);
        return;
      }
      n := n + 1;
    }
  }

  method RecoveryTime(tl: seq<Tick>, t0: int, lo: int, hi: int)
    returns (baseline: real, recovered: Option<real>, windows: seq<Measured>)
    ensures baseline == Baseline(tl, lo, hi) && windows == Windows(After(tl, t0))
    ensures recovered == Recovery(tl, t0, lo, hi)
    ensures ReportsEarliest(windows, baseline, t0, recovered)
  {
    baseline := Baseline(tl, lo, hi);
    windows := MeasureWindows(After(tl, t0));
    recovered := FirstRecovered(windows, baseline, t0);
  }

  // ------------------------------------------- the recovery on the timeline itself

  // The responses of the buckets that start in [lo, hi), and how many such buckets there are.
  function Responses(tl: seq<Tick>, lo: int, hi: int): int {
    if tl == [] then 0 else (if lo <= tl[0].ms < hi then tl[0].r else 0) + Responses(tl[1..], lo, hi)
  }

  function Buckets(tl: seq<Tick>, lo: int, hi: int): nat {
    if tl == [] then 0 else (if lo <= tl[0].ms < hi then 1 else 0) + Buckets(tl[1..], lo, hi)
  }

  lemma {:induction false} BaseRatesIs(tl: seq<Tick>, lo: int, hi: int)
    ensures |BaseRates(tl, lo, hi)| == Buckets(tl, lo, hi) && SumOf(BaseRates(tl, lo, hi)) == Responses(tl, lo, hi)
  {
    if tl != [] {
      BaseRatesIs(tl[1..], lo, hi);
      var rest := BaseRates(tl[1..], lo, hi);
      assert ([tl[0].r] + rest)[1..] == rest && [] + rest == rest;
    }
  }

  // The baseline is the responses per bucket of its window, and zero without a bucket.
  lemma BaselineIs(tl: seq<Tick>, lo: int, hi: int)
    ensures Baseline(tl, lo, hi) * Buckets(tl, lo, hi) as real == Responses(tl, lo, hi) as real
    ensures Buckets(tl, lo, hi) == 0 ==> Baseline(tl, lo, hi) == 0.0
  {
    BaseRatesIs(tl, lo, hi);
    assert BaseRates(tl, lo, hi) == [] ==> SumOf(BaseRates(tl, lo, hi)) == 0;
  }

  // A bucket for every second.
  ghost predicate GapFree(tl: seq<Tick>) {
    forall i {:trigger tl[i]} | 0 < i < |tl| :: tl[i].ms == tl[0].ms + 1000 * i
  }

  lemma GapFreeTail(tl: seq<Tick>)
    requires tl != [] && GapFree(tl)
    ensures GapFree(tl[1..])
  {
  }

  lemma {:induction false} NoResponses(tl: seq<Tick>, lo: int, hi: int)
    requires forall i | 0 <= i < |tl| :: !(lo <= tl[i].ms < hi)
    ensures Responses(tl, lo, hi) == 0
  {
    if tl != [] { NoResponses(tl[1..], lo, hi); }
  }

  // Two seconds of a timeline without gaps are two neighbouring buckets.
  lemma {:induction false} TwoBuckets(tl: seq<Tick>, k: nat)
    requires GapFree(tl) && k + 1 < |tl|
    ensures Responses(tl, tl[k].ms, tl[k].ms + 2000) == tl[k].r + tl[k + 1].r && tl[k + 1].ms == tl[k].ms + 1000
  {
    var rest, lo := tl[1..], tl[k].ms;
    GapFreeTail(tl);
    if k > 0 {
      TwoBuckets(rest, k - 1);
      assert rest[k - 1] == tl[k] && rest[k] == tl[k + 1];
    } else {
      assert rest[0] == tl[1];
      NoResponses(rest[1..], lo, lo + 2000);
    }
  }

  // On a timeline without gaps the buckets that end after t0 are its tail.
  lemma {:induction false} AfterIsTail(tl: seq<Tick>, t0: int) returns (n: nat)
    requires GapFree(tl)
    ensures n <= |tl| && After(tl, t0) == tl[n..]
    ensures forall i | 0 <= i < |tl| :: i >= n <==> tl[i].ms + 1000 > t0
  {
    if tl == [] {
      n := 0;
    } else {
      GapFreeTail(tl);
      var m := AfterIsTail(tl[1..], t0);
      assert forall i | 0 < i < |tl| :: tl[i] == tl[1..][i - 1];
      if tl[0].ms + 1000 > t0 {
        n := 0;
        if |tl| > 1 { assert tl[1..][0].ms + 1000 > t0; }
        assert m == 0 && tl[1..][0..] == tl[1..] && tl[0..] == tl;
      } else {
        n := m + 1;
        assert tl[1..][m..] == tl[n..];
      }
    }
  }

  // Bucket k ends after t0, and both the two seconds from its start and the two after them carry at least four
  // fifths of the baseline.
  ghost predicate RecoversAt(tl: seq<Tick>, t0: int, baseline: real, k: nat) {
    && k + 3 < |tl| && tl[k].ms + 1000 > t0 && baseline > 0.0
    && Responses(tl, tl[k].ms, tl[k].ms + 2000) as real >= 2.0 * (0.8 * baseline)
    && Responses(tl, tl[k].ms + 2000, tl[k].ms + 4000) as real >= 2.0 * (0.8 * baseline)
  }

  lemma WindowIs(tl: seq<Tick>, n: nat, i: nat)
    requires GapFree(tl) && n <= |tl| && i + 1 < |tl[n..]|
    ensures var k, w := n + i, Windows(tl[n..])[i];
            && k + 1 < |tl| && w.end == tl[k].ms + 2000
            && 2.0 * w.rate == Responses(tl, tl[k].ms, tl[k].ms + 2000) as real
  {
    TwoBuckets(tl, n + i);
    assert tl[n..][i] == tl[n + i] && tl[n..][i + 1] == tl[n + i + 1];
  }

  lemma ConfirmedIs(tl: seq<Tick>, t0: int, baseline: real, n: nat, i: nat)
    requires GapFree(tl) && n <= |tl| && forall j | 0 <= j < |tl| :: j >= n <==> tl[j].ms + 1000 > t0
    ensures ConfirmedAt(Windows(tl[n..]), baseline, i) <==> RecoversAt(tl, t0, baseline, n + i)
  {
    if n + i + 3 < |tl| {
      WindowIs(tl, n, i);
      WindowIs(tl, n, i + 2);
      assert tl[n + i + 2].ms == tl[n + i].ms + 2000;
    }
  }

  ghost predicate FirstRecoversAt(tl: seq<Tick>, t0: int, baseline: real, k: nat) {
    RecoversAt(tl, t0, baseline, k) && forall j: nat | j < k :: !RecoversAt(tl, t0, baseline, j)
  }

  lemma NotConfirmedNotRecovered(tl: seq<Tick>, t0: int, baseline: real, n: nat, end: nat)
    requires GapFree(tl) && n <= |tl| && forall j | 0 <= j < |tl| :: j >= n <==> tl[j].ms + 1000 > t0
    requires forall i: nat | i < end :: !ConfirmedAt(Windows(tl[n..]), baseline, i)
    ensures forall k: nat | k < n + end :: !RecoversAt(tl, t0, baseline, k)
  {
    forall k: nat | k < n + end ensures !RecoversAt(tl, t0, baseline, k) {
      if k >= n { ConfirmedIs(tl, t0, baseline, n, k - n); }
    }
  }

  // MAIN RESULT.  On a timeline without gaps the reported time is that of the earliest recovery: the end of the first
  // two seconds that carry four fifths of the baseline and are followed by two more that do; none is reported exactly
  // when there is no such bucket.
  lemma RecoveryIsEarliest(tl: seq<Tick>, t0: int, lo: int, hi: int)
    requires GapFree(tl)
    ensures var baseline := Baseline(tl, lo, hi);
            match Recovery(tl, t0, lo, hi)
            case None => forall k: nat :: !RecoversAt(tl, t0, baseline, k)
            case Some(secs) =>
              exists k: nat :: FirstRecoversAt(tl, t0, baseline, k) && secs == (tl[k].ms + 2000 - t0) as real / 1000.0
  {
    var n := AfterIsTail(tl, t0);
    var baseline, ws := Baseline(tl, lo, hi), Windows(tl[n..]);
    FirstConfirmedIs(ws, baseline, 0);
    var f := FirstConfirmed(ws, baseline, 0);
    NotConfirmedNotRecovered(tl, t0, baseline, n, f);
    if f < |ws| {
      ConfirmedIs(tl, t0, baseline, n, f);
      WindowIs(tl, n, f);
      assert FirstRecoversAt(tl, t0, baseline, n + f);
    }
  }

  // -------------------------------------------------------- a bounded timeline

  // Buckets strictly before `end`.
  function Bounded(tl: seq<Tick>, end: int): seq<Tick> {
    if tl == [] then [] else (if tl[0].ms < end then [tl[0]] else []) + Bounded(tl[1..], end)
  }

  ghost predicate InOrder(tl: seq<Tick>) {
    forall i, j | 0 <= i < j < |tl| :: tl[i].ms <= tl[j].ms
  }

  // On an ordered timeline the cut keeps a prefix, and nothing it drops is before the cut.
  lemma {:induction false} CutIsPrefix(tl: seq<Tick>, end: int) returns (n: nat)
    requires InOrder(tl)
    ensures n <= |tl| && Bounded(tl, end) == tl[..n]
    ensures forall i | n <= i < |tl| :: tl[i].ms >= end
  {
    if tl == [] {
      n := 0;
    } else {
      var m := CutIsPrefix(tl[1..], end);
      if tl[0].ms < end {
        n := m + 1;
        assert tl[..n] == [tl[0]] + tl[1..][..m];
        assert forall i | n <= i < |tl| :: tl[i] == tl[1..][i - 1];
      } else {
        n := 0;
        assert forall i | 0 < i < |tl| :: tl[0].ms <= tl[i].ms;
        NothingBefore(tl[1..], end);
      }
    }
  }

  lemma {:induction false} NothingBefore(tl: seq<Tick>, end: int)
    requires forall i | 0 <= i < |tl| :: tl[i].ms >= end
    ensures Bounded(tl, end) == []
  {
    if tl != [] { NothingBefore(tl[1..], end); }
  }

  lemma {:induction false} BaseOfCut(tl: seq<Tick>, n: nat, lo: int, hi: int)
    requires n <= |tl| && forall i | n <= i < |tl| :: tl[i].ms >= hi
    ensures BaseRates(tl, lo, hi) == BaseRates(tl[..n], lo, hi)
    decreases |tl|
  {
    if tl != [] {
      if n > 0 {
        BaseOfCut(tl[1..], n - 1, lo, hi);
        assert tl[..n][1..] == tl[1..][..n - 1];
      } else {
        BaseOfCut(tl[1..], 0, lo, hi);
        assert tl[..0] == [] == tl[1..][..0];
      }
    }
  }

  lemma {:induction false} AfterOfCut(tl: seq<Tick>, n: nat, t0: int)
    requires n <= |tl|
    ensures After(tl[..n], t0) <= After(tl, t0)
    decreases |tl|
  {
    if n > 0 {
      AfterOfCut(tl[1..], n - 1, t0);
      assert tl[..n][1..] == tl[1..][..n - 1];
    }
  }

  lemma {:induction false} FirstOfLonger(ws: seq<Measured>, longer: seq<Measured>, baseline: real, i: nat)
    requires |ws| <= |longer| && forall k | 0 <= k < |ws| :: ws[k] == longer[k]
    requires i <= |ws| && FirstConfirmed(ws, baseline, i) < |ws|
    ensures FirstConfirmed(longer, baseline, i) == FirstConfirmed(ws, baseline, i)
    decreases |ws| - i
  {
    if !ConfirmedAt(ws, baseline, i) {
      NotConfirmedLonger(ws, longer, baseline, i);
      FirstOfLonger(ws, longer, baseline, i + 1);
    }
  }

  // A window left unconfirmed only for want of data is never followed by a confirmed one.
  lemma NotConfirmedLonger(ws: seq<Measured>, longer: seq<Measured>, baseline: real, i: nat)
    requires |ws| <= |longer| && forall k | 0 <= k < |ws| :: ws[k] == longer[k]
    requires i < |ws| && !ConfirmedAt(ws, baseline, i) && FirstConfirmed(ws, baseline, i + 1) < |ws|
    ensures !ConfirmedAt(longer, baseline, i)
  {
    FirstConfirmedIs(ws, baseline, i + 1);
  }

  // MAIN RESULT.  An answer read off a timeline cut after the baseline window is the answer of the
  // full timeline: cutting can hide a recovery, never invent or move one.
  lemma CutKeepsAnswer(tl: seq<Tick>, end: int, t0: int, lo: int, hi: int)
    requires InOrder(tl) && hi <= end && Recovery(Bounded(tl, end), t0, lo, hi).Some?
    ensures Recovery(tl, t0, lo, hi) == Recovery(Bounded(tl, end), t0, lo, hi)
    ensures Baseline(tl, lo, hi) == Baseline(Bounded(tl, end), lo, hi)
  {
    var n := CutIsPrefix(tl, end);
    BaseOfCut(tl, n, lo, hi);
    AfterOfCut(tl, n, t0);
    FirstOfLonger(Windows(After(tl[..n], t0)), Windows(After(tl, t0)), Baseline(tl, lo, hi), 0);
  }
}
