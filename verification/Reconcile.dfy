/**
Term-map reconciliation: how much of a follower's log survives when it compares its own
term map with the window of the leader's map that the leader ships.
 */
module Reconcile {
  import opened Numbers

  // Term `term` begins at byte position `base`.
  datatype Entry = Entry(term: nat, base: nat)

  type TermMap = seq<Entry>

  datatype Outcome = Kept(validUpTo: nat, map_: TermMap) | NoCommonPrefix

  const MAX_WIRE_ENTRIES: nat := 64

  // What a leader ships: the last entries of its map.
  function WireTail(m: TermMap): TermMap {
    if |m| <= MAX_WIRE_ENTRIES then m else m[|m| - MAX_WIRE_ENTRIES..]
  }

  // ------------------------------------------------------------- the kernel

  // The index of `e` in `m`, or |m|.
  function IndexOf(m: TermMap, e: Entry, i: nat): nat
    requires i <= |m|
    decreases |m| - i
  {
    if i == |m| || m[i] == e then i else IndexOf(m, e, i + 1)
  }

  // The index of the first entry of at least the given term, or |m|.
  function FirstFrom(m: TermMap, term: nat, i: nat): nat
    requires i <= |m|
    decreases |m| - i
  {
    if i == |m| || m[i].term >= term then i else FirstFrom(m, term, i + 1)
  }

  // The length of the common run of own[j..] and leader, from offset k on.
  function Run(own: TermMap, j: nat, leader: TermMap, k: nat): nat
    requires j + k <= |own| && k <= |leader|
    decreases |leader| - k
  {
    if j + k < |own| && k < |leader| && own[j + k] == leader[k] then Run(own, j, leader, k + 1) else k
  }

  // The entries that begin below `cut`.
  function Below(m: TermMap, cut: nat): TermMap {
    if m == [] then []
    else Below(m[..|m| - 1], cut) + if m[|m| - 1].base < cut then [m[|m| - 1]] else []
  }

  // Where a window that starts outside our map cuts it.
  function CutOutside(own: TermMap, durable: nat, first: Entry): nat {
    var cut := Min(durable, first.base);
    var i := FirstFrom(own, first.term, 0);
    FirstFromIs(own, first.term, 0);
    if i < |own| then Min(cut, own[i].base) else cut
  }

  // Where a window that shares own[j..j + k] cuts the map.
  function CutAfter(own: TermMap, durable: nat, j: nat, leader: TermMap, k: nat): nat {
    var valid := if j + k < |own| then Min(durable, own[j + k].base) else durable;
    if k < |leader| && leader[k].base < durable then Min(valid, leader[k].base) else valid
  }

  function Reconciled(own: TermMap, durable: nat, leader: TermMap): Outcome {
    if leader == [] then Kept(durable, own)
    else
      IndexOfIs(own, leader[0], 0);
      var j := IndexOf(own, leader[0], 0);
      if j == |own| then
        if own == [] then Kept(durable, [])
        else if leader[0].base > durable then NoCommonPrefix
        else
          var cut := CutOutside(own, durable, leader[0]);
          Kept(cut, Below(own, cut))
      else
        RunIs(own, j, leader, 0);
        var k := Run(own, j, leader, 0);
        var valid := CutAfter(own, durable, j, leader, k);
        Kept(valid, own[..j + k] + Below(own[j + k..], valid))
  }

  lemma {:induction false} IndexOfIs(m: TermMap, e: Entry, i: nat)
    requires i <= |m|
    ensures var j := IndexOf(m, e, i);
            i <= j <= |m| && (j < |m| ==> m[j] == e) && forall n | i <= n < j :: m[n] != e
    decreases |m| - i
  {
    if i < |m| && m[i] != e { IndexOfIs(m, e, i + 1); }
  }

  lemma {:induction false} FirstFromIs(m: TermMap, term: nat, i: nat)
    requires i <= |m|
    ensures var j := FirstFrom(m, term, i);
            i <= j <= |m| && (j < |m| ==> m[j].term >= term) && forall n | i <= n < j :: m[n].term < term
    decreases |m| - i
  {
    if i < |m| && m[i].term < term { FirstFromIs(m, term, i + 1); }
  }

  lemma {:induction false} RunIs(own: TermMap, j: nat, leader: TermMap, k: nat)
    requires j + k <= |own| && k <= |leader|
    ensures var n := Run(own, j, leader, k);
            && k <= n && j + n <= |own| && n <= |leader|
            && (forall i | k <= i < n :: own[j + i] == leader[i])
            && (j + n < |own| && n < |leader| ==> own[j + n] != leader[n])
    decreases |leader| - k
  {
    if j + k < |own| && k < |leader| && own[j + k] == leader[k] { RunIs(own, j, leader, k + 1); }
  }

  method KeepBelow(m: TermMap, cut: nat) returns (kept: TermMap)
    ensures kept == Below(m, cut)
  {
    kept := [];
    for i := 0 to |m|
      invariant kept == Below(m[..i], cut)
    {
      assert m[..i + 1][..i] == m[..i];
      if m[i].base < cut { kept := kept + [m[i]]; }
    }
    assert m[..|m|] == m;
  }

  method ReconcileMaps(own: TermMap, durable: nat, leader: TermMap) returns (r: Outcome)
    ensures r == Reconciled(own, durable, leader)
  {
    if leader == [] { return Kept(durable, own); }
    IndexOfIs(own, leader[0], 0);
    var j := 0;
    while j < |own| && own[j] != leader[0]
      invariant 0 <= j <= |own| && IndexOf(own, leader[0], 0) == IndexOf(own, leader[0], j)
    {
      j := j + 1;
    }
    if j == |own| {
      if own != [] && leader[0].base > durable { return NoCommonPrefix; }
      if own == [] { return Kept(durable, []); }
      var cut := Min(durable, leader[0].base);
      var i := 0;
      while i < |own| && own[i].term < leader[0].term
        invariant 0 <= i <= |own| && FirstFrom(own, leader[0].term, 0) == FirstFrom(own, leader[0].term, i)
      {
        i := i + 1;
      }
      if i < |own| { cut := Min(cut, own[i].base); }
      var kept := KeepBelow(own, cut);
      return Kept(cut, kept);
    }
    var k := 0;
    while j + k < |own| && k < |leader| && own[j + k] == leader[k]
      invariant j + k <= |own| && k <= |leader| && Run(own, j, leader, 0) == Run(own, j, leader, k)
      decreases |leader| - k
    {
      k := k + 1;
    }
    var valid := durable;
    if j + k < |own| { valid := Min(valid, own[j + k].base); }
    if k < |leader| && leader[k].base < durable { valid := Min(valid, leader[k].base); }
    var rest := KeepBelow(own[j + k..], valid);
    return Kept(valid, own[..j + k] + rest);
  }

  // ------------------------------------------------------------- the term of a byte

  // Terms ascend strictly from 1; bases do not descend.
  ghost predicate Ascending(m: TermMap) {
    && (forall i | 0 <= i < |m| :: m[i].term >= 1)
    && (forall i, j | 0 <= i < j < |m| :: m[i].term < m[j].term && m[i].base <= m[j].base)
  }

  // Moreover every term has bytes: no two entries share a base.
  ghost predicate Strict(m: TermMap) {
    Ascending(m) && forall i, j | 0 <= i < j < |m| :: m[i].base < m[j].base
  }

  // The index of the entry that covers position `p`, or -1 below the first.
  ghost function Cover(m: TermMap, p: nat): (i: int)
    requires Ascending(m)
    ensures -1 <= i < |m|
    ensures forall n | 0 <= n <= i :: m[n].base <= p
    ensures forall n | i < n < |m| :: m[n].base > p
  {
    if m == [] then -1
    else if m[|m| - 1].base <= p then |m| - 1
    else
      var rest := m[..|m| - 1];
      Cover(rest, p)
  }

  // The term whose leader wrote the byte at `p`; 0 where no term began.
  ghost function TermAt(m: TermMap, p: nat): nat
    requires Ascending(m)
  {
    if Cover(m, p) < 0 then 0 else m[Cover(m, p)].term
  }

  ghost predicate AgreeBelow(a: TermMap, b: TermMap, cut: nat)
    requires Ascending(a) && Ascending(b)
  {
    forall p: nat | p < cut :: TermAt(a, p) == TermAt(b, p)
  }

  // `v` is exactly where a log of the given durable length first departs from the leader's.
  ghost predicate FirstDifference(own: TermMap, durable: nat, leader: TermMap, v: nat)
    requires Ascending(own) && Ascending(leader)
  {
    v <= durable && AgreeBelow(own, leader, v) && (v < durable ==> TermAt(own, v) != TermAt(leader, v))
  }

  // ------------------------------------------------------------- agreement

  lemma {:induction false} BelowIs(m: TermMap, cut: nat) returns (n: nat)
    requires Ascending(m)
    ensures n <= |m| && Below(m, cut) == m[..n]
    ensures (forall i | 0 <= i < n :: m[i].base < cut) && (forall i | n <= i < |m| :: m[i].base >= cut)
  {
    if m == [] {
      n := 0;
    } else if m[|m| - 1].base < cut {
      forall i | 0 <= i < |m| ensures m[i].base < cut {
        if i < |m| - 1 { assert m[i].base <= m[|m| - 1].base; }
      }
      AllBelow(m, cut);
      n := |m|;
      assert m[..n] == m;
    } else {
      var front := m[..|m| - 1];
      n := BelowIs(front, cut);
      assert front[..n] == m[..n];
      forall i | n <= i < |m| ensures m[i].base >= cut {
        if i < |m| - 1 { assert front[i] == m[i]; }
      }
    }
  }

  lemma {:induction false} AllBelow(m: TermMap, cut: nat)
    requires forall i | 0 <= i < |m| :: m[i].base < cut
    ensures Below(m, cut) == m
  {
    if m != [] {
      AllBelow(m[..|m| - 1], cut);
      assert m == m[..|m| - 1] + [m[|m| - 1]];
    }
  }

  lemma CoverIs(m: TermMap, i: nat, p: nat)
    requires Ascending(m) && i < |m| && m[i].base <= p && (i + 1 < |m| ==> p < m[i + 1].base)
    ensures Cover(m, p) == i
  {
  }

  lemma CoverBefore(m: TermMap, i: nat, p: nat)
    requires Ascending(m) && i <= |m| && (i < |m| ==> p < m[i].base)
    ensures Cover(m, p) < i
  {
  }

  // The last entry that begins below `cut`, as a map of at most one entry.
  function LastBelow(m: TermMap, cut: nat): TermMap {
    var b := Below(m, cut);
    if b == [] then [] else [b[|b| - 1]]
  }

  // Two histories that both hold an entry hold the same bytes below it.
  ghost predicate MapsMatch(a: TermMap, b: TermMap)
    requires Ascending(a) && Ascending(b)
  {
    forall i, j | 0 <= i < |a| && 0 <= j < |b| && a[i] == b[j] :: AgreeBelow(a, b, a[i].base)
  }

  // Equal runs of entries give equal terms up to the next entry of either map.
  lemma SameRunSameTerm(a: TermMap, i: nat, b: TermMap, j: nat, n: nat, p: nat)
    requires Ascending(a) && Ascending(b) && 1 <= n && i + n <= |a| && j + n <= |b|
    requires a[i..i + n] == b[j..j + n]
    requires a[i].base <= p && (i + n < |a| ==> p < a[i + n].base) && (j + n < |b| ==> p < b[j + n].base)
    ensures TermAt(a, p) == TermAt(b, p)
  {
    CoverBefore(a, i + n, p);
    var k := Cover(a, p) - i;
    assert k >= 0;
    assert a[i..i + n][k] == a[i + k] && b[j..j + n][k] == b[j + k];
    if k + 1 < n {
      assert a[i..i + n][k + 1] == a[i + k + 1] && b[j..j + n][k + 1] == b[j + k + 1];
    }
    CoverIs(b, j + k, p);
  }

  lemma SharedLastAgrees(a: TermMap, n: nat, b: TermMap, m: nat, cut: nat)
    requires Ascending(a) && Ascending(b) && MapsMatch(a, b) && 1 <= n <= |a| && 1 <= m <= |b| && a[n - 1] == b[m - 1]
    requires (n < |a| ==> a[n].base >= cut) && (m < |b| ==> b[m].base >= cut)
    ensures AgreeBelow(a, b, cut)
  {
    forall p: nat | p < cut ensures TermAt(a, p) == TermAt(b, p) {
      if p >= a[n - 1].base {
        assert a[n - 1..n] == b[m - 1..m];
        SameRunSameTerm(a, n - 1, b, m - 1, 1, p);
      } else {
        assert AgreeBelow(a, b, a[n - 1].base);
      }
    }
  }

  // The entries of m that begin below `cut` are its first n.
  ghost predicate SplitsAt(m: TermMap, n: nat, cut: nat) {
    n <= |m| && (forall i | 0 <= i < n :: m[i].base < cut) && (forall i | n <= i < |m| :: m[i].base >= cut)
  }

  lemma LastBelowIs(m: TermMap, cut: nat) returns (n: nat)
    requires Ascending(m)
    ensures SplitsAt(m, n, cut) && LastBelow(m, cut) == if n == 0 then [] else [m[n - 1]]
  {
    n := BelowIs(m, cut);
  }

  lemma NothingBelowAgrees(a: TermMap, b: TermMap, cut: nat)
    requires Ascending(a) && Ascending(b) && SplitsAt(a, 0, cut) && SplitsAt(b, 0, cut)
    ensures AgreeBelow(a, b, cut)
  {
    forall p: nat | p < cut ensures TermAt(a, p) == TermAt(b, p) {
      CoverBefore(a, 0, p);
      CoverBefore(b, 0, p);
    }
  }

  lemma LastBelowDecides(a: TermMap, b: TermMap, cut: nat)
    requires Strict(a) && Strict(b) && MapsMatch(a, b)
    ensures AgreeBelow(a, b, cut) <==> LastBelow(a, cut) == LastBelow(b, cut)
  {
    var n := LastBelowIs(a, cut);
    var m := LastBelowIs(b, cut);
    if n == 0 && m == 0 {
      NothingBelowAgrees(a, b, cut);
    } else if n > 0 && m > 0 && a[n - 1] == b[m - 1] {
      SharedLastAgrees(a, n, b, m, cut);
    } else {
      var p := LastEntriesDiffer(a, n, b, m, cut);
    }
  }

  // Where two maps disagree when their last entries below `cut` are not the same.
  lemma LastEntriesDiffer(a: TermMap, n: nat, b: TermMap, m: nat, cut: nat) returns (p: nat)
    requires Strict(a) && Strict(b) && SplitsAt(a, n, cut) && SplitsAt(b, m, cut)
    requires n + m > 0 && (n > 0 && m > 0 ==> a[n - 1] != b[m - 1])
    ensures p < cut && TermAt(a, p) != TermAt(b, p)
  {
    if n == 0 || (m > 0 && a[n - 1].base < b[m - 1].base) {
      p := LaterEntryDiffers(a, n, b, m, cut);
    } else if m == 0 || b[m - 1].base < a[n - 1].base {
      p := LaterEntryDiffers(b, m, a, n, cut);
    } else {
      p := a[n - 1].base;
      CoverIs(a, n - 1, p);
      CoverIs(b, m - 1, p);
    }
  }

  // The map whose last entry begins later disagrees there, or where the other's begins.
  lemma LaterEntryDiffers(a: TermMap, n: nat, b: TermMap, m: nat, cut: nat) returns (p: nat)
    requires Strict(a) && Strict(b) && SplitsAt(a, n, cut) && SplitsAt(b, m, cut)
    requires m > 0 && (n > 0 ==> a[n - 1].base < b[m - 1].base)
    ensures p < cut && TermAt(a, p) != TermAt(b, p)
  {
    p := b[m - 1].base;
    CoverIs(b, m - 1, p);
    CoverBefore(a, n, p);
    if n > 0 {
      CoverIs(a, n - 1, p);
      if a[n - 1].term == b[m - 1].term {
        p := a[n - 1].base;
        CoverIs(a, n - 1, p);
        CoverBefore(b, m - 1, p);
      }
    }
  }

  // ------------------------------------------------------------- exactness

  // After an equal run, the nearer of the next two entries is where the terms part.
  lemma RunsPart(a: TermMap, i: nat, b: TermMap, j: nat, v: nat)
    requires Strict(a) && Strict(b) && 1 <= i <= |a| && 1 <= j <= |b| && a[i - 1] == b[j - 1]
    requires i < |a| && j < |b| ==> a[i] != b[j]
    requires (i < |a| ==> v <= a[i].base) && (j < |b| ==> v <= b[j].base)
    requires (i < |a| && v == a[i].base) || (j < |b| && v == b[j].base)
    ensures TermAt(a, v) != TermAt(b, v)
  {
    if i < |a| && v == a[i].base {
      CoverIs(a, i, v);
      if j < |b| && v == b[j].base { CoverIs(b, j, v); } else { CoverBefore(b, j, v); }
    } else {
      CoverIs(b, j, v);
      CoverBefore(a, i, v);
    }
  }

  lemma RunAgrees(own: TermMap, j: nat, leader: TermMap, w: nat, k: nat, v: nat)
    requires Ascending(own) && Ascending(leader) && MapsMatch(own, leader)
    requires 1 <= k && j + k <= |own| && w + k <= |leader| && own[j..j + k] == leader[w..w + k]
    requires (j + k < |own| ==> v <= own[j + k].base) && (w + k < |leader| ==> v <= leader[w + k].base)
    ensures AgreeBelow(own, leader, v)
  {
    assert own[j] == own[j..j + k][0] == leader[w..w + k][0] == leader[w];
    assert AgreeBelow(own, leader, own[j].base);
    forall p: nat | p < v ensures TermAt(own, p) == TermAt(leader, p) {
      if p >= own[j].base { SameRunSameTerm(own, j, leader, w, k, p); }
    }
  }

  // The run of a window, in the coordinates of both maps.
  lemma RunInMaps(own: TermMap, j: nat, leader: TermMap, w: nat)
    requires w < |leader| && j < |own| && own[j] == leader[w]
    ensures var k := Run(own, j, leader[w..], 0);
            && 1 <= k && j + k <= |own| && w + k <= |leader| && own[j..j + k] == leader[w..w + k]
            && own[j + k - 1] == leader[w + k - 1]
            && (j + k < |own| && w + k < |leader| ==> own[j + k] != leader[w + k])
  {
    var window := leader[w..];
    RunIs(own, j, window, 0);
    var k := Run(own, j, window, 0);
    assert own[j..j + k] == window[..k] == leader[w..w + k];
    assert k < |window| ==> window[k] == leader[w + k];
    assert own[j..j + k][k - 1] == leader[w..w + k][k - 1];
  }

  lemma CutInMaps(own: TermMap, durable: nat, j: nat, leader: TermMap, w: nat, k: nat)
    requires j + k <= |own| && w + k <= |leader|
    ensures var v := CutAfter(own, durable, j, leader[w..], k);
            && v <= durable
            && (j + k < |own| ==> v <= own[j + k].base) && (w + k < |leader| ==> v <= leader[w + k].base)
            && (v < durable ==>
                  (j + k < |own| && v == own[j + k].base) || (w + k < |leader| && v == leader[w + k].base))
  {
    assert w + k < |leader| ==> leader[w..][k] == leader[w + k];
  }

  // own[j..j + k] and leader[w..w + k] are equal, the next entries differ, and `v` is the nearer of them.
  ghost predicate PartsAt(own: TermMap, durable: nat, j: nat, leader: TermMap, w: nat, k: nat, v: nat) {
    && 1 <= k && j + k <= |own| && w + k <= |leader| && own[j..j + k] == leader[w..w + k]
    && own[j + k - 1] == leader[w + k - 1] && (j + k < |own| && w + k < |leader| ==> own[j + k] != leader[w + k])
    && v <= durable && (j + k < |own| ==> v <= own[j + k].base) && (w + k < |leader| ==> v <= leader[w + k].base)
    && (v < durable ==> (j + k < |own| && v == own[j + k].base) || (w + k < |leader| && v == leader[w + k].base))
  }

  lemma RunParts(own: TermMap, durable: nat, j: nat, leader: TermMap, w: nat, k: nat)
    requires w < |leader| && j < |own| && own[j] == leader[w] && k == Run(own, j, leader[w..], 0)
    ensures PartsAt(own, durable, j, leader, w, k, CutAfter(own, durable, j, leader[w..], k))
  {
    RunInMaps(own, j, leader, w);
    CutInMaps(own, durable, j, leader, w, k);
  }

  lemma RunIsExact(own: TermMap, durable: nat, j: nat, leader: TermMap, w: nat, k: nat, v: nat)
    requires Strict(own) && Strict(leader) && MapsMatch(own, leader)
    requires PartsAt(own, durable, j, leader, w, k, v)
    ensures FirstDifference(own, durable, leader, v)
  {
    RunAgrees(own, j, leader, w, k, v);
    if v < durable { RunsPart(own, j + k, leader, w + k, v); }
  }

  // A window whose start we hold: everything kept agrees and the cut is a disagreement.
  lemma AnchoredIsExact(own: TermMap, durable: nat, leader: TermMap, w: nat, j: nat, k: nat)
    requires Strict(own) && Strict(leader) && MapsMatch(own, leader)
    requires w < |leader| && j < |own| && own[j] == leader[w] && k == Run(own, j, leader[w..], 0)
    ensures FirstDifference(own, durable, leader, CutAfter(own, durable, j, leader[w..], k))
  {
    RunParts(own, durable, j, leader, w, k);
    RunIsExact(own, durable, j, leader, w, k, CutAfter(own, durable, j, leader[w..], k));
  }

  // A window whose start we lack: the cut, if any, is a disagreement.
  lemma OutsideCutDiffers(own: TermMap, durable: nat, leader: TermMap, w: nat)
    requires Strict(own) && Strict(leader) && w < |leader| && leader[w] !in own
    ensures var v := CutOutside(own, durable, leader[w]);
            v <= durable && v <= leader[w].base && (v < durable ==> TermAt(own, v) != TermAt(leader, v))
  {
    var first := leader[w];
    FirstFromIs(own, first.term, 0);
    var i := FirstFrom(own, first.term, 0);
    var v := CutOutside(own, durable, first);
    if v < durable {
      if i < |own| && own[i].base == v {
        CoverIs(own, i, v);
        if v < first.base { CoverBefore(leader, w, v); } else { CoverIs(leader, w, v); }
      } else {
        CoverIs(leader, w, v);
        CoverBefore(own, i, v);
      }
    }
  }

  // A leader with no map judges nothing, and against a follower without one nothing is cut.
  lemma NothingToJudge(own: TermMap, durable: nat, leader: TermMap)
    requires own == [] || leader == []
    ensures Reconciled(own, durable, leader) == Kept(durable, own)
  {
  }

  // MAIN RESULT.  The surviving length never exceeds what is durable and a cut always falls on a byte the
  // leader's history contradicts, so no agreeing byte is ever cut.  It is exactly the first difference if
  // and only if both maps have the same last entry below it, and that is so whenever the window is the
  // leader's whole map or starts at an entry we hold.
  lemma ReconcileIsExact(own: TermMap, durable: nat, leader: TermMap, w: nat)
    requires Strict(own) && Strict(leader) && MapsMatch(own, leader)
    requires w < |leader| && leader[0].base == 0 && (own == [] ==> durable == 0)
    ensures var r := Reconciled(own, durable, leader[w..]);
            && (r.NoCommonPrefix? <==> own != [] && leader[w] !in own && leader[w].base > durable)
            && (r.Kept? ==>
              && r.validUpTo <= durable
              && (r.validUpTo < durable ==> TermAt(own, r.validUpTo) != TermAt(leader, r.validUpTo))
              && (FirstDifference(own, durable, leader, r.validUpTo) <==>
                    LastBelow(own, r.validUpTo) == LastBelow(leader, r.validUpTo))
              && (w == 0 || leader[w] in own ==> FirstDifference(own, durable, leader, r.validUpTo)))
  {
    var window := leader[w..];
    assert window[0] == leader[w];
    IndexOfIs(own, leader[w], 0);
    var j := IndexOf(own, leader[w], 0);
    assert j == |own| <==> leader[w] !in own;
    var r := Reconciled(own, durable, window);
    if r.Kept? {
      if j < |own| {
        AnchoredIsExact(own, durable, leader, w, j, Run(own, j, window, 0));
      } else if own != [] {
        OutsideCutDiffers(own, durable, leader, w);
      }
      LastBelowDecides(own, leader, r.validUpTo);
    }
  }

  // The surviving map is a prefix of ours and gives every kept byte the term it had.
  lemma KeptMapIsOurs(own: TermMap, durable: nat, leader: TermMap)
    requires Ascending(own) && Reconciled(own, durable, leader).Kept?
    ensures var r := Reconciled(own, durable, leader);
            r.map_ <= own && Ascending(r.map_) && AgreeBelow(r.map_, own, r.validUpTo)
  {
    var r := Reconciled(own, durable, leader);
    var n := KeptLength(own, durable, leader);
    PrefixAgrees(own, n, r.validUpTo);
  }

  lemma KeptLength(own: TermMap, durable: nat, leader: TermMap) returns (n: nat)
    requires Ascending(own) && Reconciled(own, durable, leader).Kept?
    ensures var r := Reconciled(own, durable, leader);
            n <= |own| && r.map_ == own[..n] && forall i | n <= i < |own| :: own[i].base >= r.validUpTo
  {
    var r := Reconciled(own, durable, leader);
    n := |own|;
    if leader != [] && own != [] {
      IndexOfIs(own, leader[0], 0);
      var j := IndexOf(own, leader[0], 0);
      if j == |own| {
        n := BelowIs(own, r.validUpTo);
      } else {
        n := RunKept(own, durable, j, leader);
      }
    }
  }

  lemma RunKept(own: TermMap, durable: nat, j: nat, leader: TermMap) returns (n: nat)
    requires Ascending(own) && leader != [] && j < |own| && own[j] == leader[0]
    ensures j + Run(own, j, leader, 0) == n && j < n <= |own| && n - j <= |leader|
    ensures var v := CutAfter(own, durable, j, leader, n - j);
            Below(own[n..], v) == [] && forall i | n <= i < |own| :: own[i].base >= v
  {
    RunIs(own, j, leader, 0);
    n := j + Run(own, j, leader, 0);
    var v := CutAfter(own, durable, j, leader, n - j);
    forall i | n <= i < |own| ensures own[i].base >= v {
      if i > n { assert own[n].base <= own[i].base; }
    }
    NothingBelow(own[n..], v);
  }

  lemma InsideIs(own: TermMap, durable: nat, window: TermMap, j: nat, n: nat, v: nat)
    requires window != [] && j < |own| && j == IndexOf(own, window[0], 0) && own[j] == window[0]
    requires j <= n <= |own| && n - j == Run(own, j, window, 0) && v == CutAfter(own, durable, j, window, n - j)
    requires Below(own[n..], v) == []
    ensures Reconciled(own, durable, window) == Kept(v, own[..n])
  {
    assert own[..n] + [] == own[..n];
  }

  lemma PrefixAgrees(m: TermMap, n: nat, cut: nat)
    requires Ascending(m) && n <= |m| && (forall i | n <= i < |m| :: m[i].base >= cut)
    ensures Ascending(m[..n]) && AgreeBelow(m[..n], m, cut)
  {
    forall p: nat | p < cut ensures TermAt(m[..n], p) == TermAt(m, p) {
      CoverBefore(m, n, p);
      var i := Cover(m, p);
      if i >= 0 { CoverIs(m[..n], i, p); } else { CoverBefore(m[..n], 0, p); }
    }
  }

  lemma {:induction false} NothingBelow(m: TermMap, cut: nat)
    requires forall i | 0 <= i < |m| :: m[i].base >= cut
    ensures Below(m, cut) == []
  {
    if m != [] { NothingBelow(m[..|m| - 1], cut); }
  }
}
