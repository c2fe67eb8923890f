/**
What the rest of a node does with term maps: opening a term as leader, settling after a
reconcile, and the limit the shipped window puts on reconciling.
 */
module TermMaps {
  import opened Reconcile

  // ------------------------------------------------------------- opening a term

  // Every term below `durable` has bytes; entries may pile up only at `durable` itself.
  ghost predicate StrictBelow(m: TermMap, durable: nat) {
    && Ascending(m) && (forall i | 0 <= i < |m| :: m[i].base <= durable)
    && forall i, j | 0 <= i < j < |m| && m[j].base < durable :: m[i].base < m[j].base
  }

  // A leader opens its term at its durable position, first dropping every entry of a term that never got a byte.
  method OpenTerm(m: TermMap, durable: nat, term: nat) returns (r: TermMap)
    requires StrictBelow(m, durable) && (forall i | 0 <= i < |m| :: m[i].term < term) && term >= 1
    ensures Strict(r) && r == Below(m, durable) + [Entry(term, durable)]
    ensures AgreeBelow(r, m, durable)
    ensures forall p: nat | p >= durable :: TermAt(r, p) == term
  {
    r := m;
    while r != [] && r[|r| - 1].base == durable
      invariant r <= m && forall i | |r| <= i < |m| :: m[i].base == durable
    {
      r := r[..|r| - 1];
    }
    PrefixIsBelow(m, |r|, durable);
    OpenedIs(m, |r|, durable, term);
    r := r + [Entry(term, durable)];
  }

  lemma OpenedIs(m: TermMap, n: nat, durable: nat, term: nat)
    requires StrictBelow(m, durable) && n <= |m| && term >= 1
    requires forall i | 0 <= i < n :: m[i].base < durable && m[i].term < term
    requires forall i | n <= i < |m| :: m[i].base == durable
    ensures var r := m[..n] + [Entry(term, durable)];
            Strict(r) && AgreeBelow(r, m, durable) && forall p: nat | p >= durable :: TermAt(r, p) == term
  {
    var r := m[..n] + [Entry(term, durable)];
    assert r[..n] == m[..n];
    PrefixAgrees(r, n, durable);
    PrefixAgrees(m, n, durable);
    forall p: nat | p >= durable ensures TermAt(r, p) == term { CoverIs(r, n, p); }
  }

  lemma PrefixIsBelow(m: TermMap, n: nat, cut: nat)
    requires Ascending(m) && n <= |m| && (forall i | 0 <= i < |m| :: m[i].base <= cut)
    requires (forall i | n <= i < |m| :: m[i].base == cut) && (n > 0 ==> m[n - 1].base < cut)
    ensures Below(m, cut) == m[..n] && forall i | 0 <= i < n :: m[i].base < cut
  {
    var k := BelowIs(m, cut);
    forall i | 0 <= i < n ensures m[i].base < cut {
      if i < n - 1 { assert m[i].base <= m[n - 1].base; }
    }
  }

  // ------------------------------------------------------------- reconciling again

  // The start of the window cannot be placed below what survived.
  predicate Lost(own: TermMap, window: TermMap, r: Outcome) {
    && r.Kept? && window != [] && r.map_ != [] && window[0] !in own && window[0].base > r.validUpTo
  }

  // MAIN RESULT.  Reconciling what survived against the same window changes nothing, unless the window
  // starts above what survived and we do not hold its start: then the second attempt finds no common
  // prefix.
  lemma ReconcileSettles(own: TermMap, durable: nat, window: TermMap)
    requires Ascending(own) && Reconciled(own, durable, window).Kept?
    ensures var r := Reconciled(own, durable, window);
            Reconciled(r.map_, r.validUpTo, window) == if Lost(own, window, r) then NoCommonPrefix else r
  {
    var r := Reconciled(own, durable, window);
    if window != [] && own != [] {
      IndexOfIs(own, window[0], 0);
      var j := IndexOf(own, window[0], 0);
      if j == |own| {
        var n := BelowIs(own, r.validUpTo);
        OutsideSettles(own, durable, window, n, r.validUpTo);
      } else {
        var n := RunKept(own, durable, j, window);
        var v := CutAfter(own, durable, j, window, n - j);
        InsideIs(own, durable, window, j, n, v);
        InsideSettles(own, durable, window, j, n, v);
      }
    }
  }

  lemma OutsideSettles(own: TermMap, durable: nat, window: TermMap, n: nat, cut: nat)
    requires Ascending(own) && window != [] && window[0] !in own && cut == CutOutside(own, durable, window[0])
    requires n <= |own| && forall i | 0 <= i < n :: own[i].base < cut
    ensures Reconciled(own[..n], cut, window) ==
            if n > 0 && window[0].base > cut then NoCommonPrefix else Kept(cut, own[..n])
  {
    var first, m := window[0], own[..n];
    NotThere(m, first);
    if n > 0 && first.base <= cut {
      OutsideCutAgain(own, durable, first, n, cut);
      AllBelow(m, cut);
    }
  }

  lemma NotThere(m: TermMap, e: Entry)
    requires e !in m
    ensures IndexOf(m, e, 0) == |m|
  {
    IndexOfIs(m, e, 0);
  }

  lemma OutsideCutAgain(own: TermMap, durable: nat, first: Entry, n: nat, cut: nat)
    requires Ascending(own) && n <= |own| && cut == CutOutside(own, durable, first) && first.base <= cut
    requires forall i | 0 <= i < n :: own[i].base < cut
    ensures CutOutside(own[..n], cut, first) == cut
  {
    FirstFromIs(own, first.term, 0);
    FirstFromIs(own[..n], first.term, 0);
    var f := FirstFrom(own, first.term, 0);
    assert n <= f;
  }

  lemma InsideSettles(own: TermMap, durable: nat, window: TermMap, j: nat, n: nat, v: nat)
    requires window != [] && j < n <= |own| && j == IndexOf(own, window[0], 0) && own[j] == window[0]
    requires n - j == Run(own, j, window, 0) <= |window| && v == CutAfter(own, durable, j, window, n - j)
    ensures Reconciled(own[..n], v, window) == Kept(v, own[..n])
  {
    SameIndex(own, n, window[0], j);
    SameRun(own, n, j, window, 0);
    CutAgain(own, durable, j, window, n, v);
    AnchoredIs(own[..n], v, window, j, n - j);
  }

  // Cutting again at the same run keeps the same length.
  lemma CutAgain(own: TermMap, durable: nat, j: nat, window: TermMap, n: nat, v: nat)
    requires j <= n <= |own| && n - j <= |window| && v == CutAfter(own, durable, j, window, n - j)
    ensures CutAfter(own[..n], v, j, window, n - j) == v
  {
  }

  // A run that ends with our map keeps all of it.
  lemma AnchoredIs(m: TermMap, v: nat, window: TermMap, j: nat, k: nat)
    requires window != [] && j < |m| && m[j] == window[0] && j == IndexOf(m, window[0], 0)
    requires k == Run(m, j, window, 0) && j + k == |m| && CutAfter(m, v, j, window, k) == v
    ensures Reconciled(m, v, window) == Kept(v, m)
  {
    assert m[..|m|] == m && m[|m|..] == [];
    assert Below([], v) == [];
  }

  lemma SameIndex(own: TermMap, n: nat, e: Entry, j: nat)
    requires j < n <= |own| && j == IndexOf(own, e, 0) && own[j] == e
    ensures IndexOf(own[..n], e, 0) == j
  {
    IndexOfIs(own, e, 0);
    IndexOfIs(own[..n], e, 0);
    var i := IndexOf(own[..n], e, 0);
    assert own[..n][j] == own[j];
  }

  lemma {:induction false} SameRun(own: TermMap, n: nat, j: nat, window: TermMap, k: nat)
    requires j + k <= n <= |own| && k <= |window| && j + Run(own, j, window, k) == n
    ensures j + Run(own[..n], j, window, k) == n
    decreases |window| - k
  {
    if j + k < |own| && k < |window| && own[j + k] == window[k] {
      RunIs(own, j, window, k + 1);
      SameRun(own, n, j, window, k + 1);
    }
  }

  // ------------------------------------------------------------- what a window settles

  // A leader map that would ship this window and that the follower's history could have.
  ghost predicate Ships(own: TermMap, l: TermMap, window: TermMap)
    requires Ascending(own)
  {
    Strict(l) && l != [] && l[0].base == 0 && MapsMatch(own, l) && WireTail(l) == window
  }

  // What a follower can see for itself: it holds the window's start, or the window is a whole map, or there is
  // only one history the window can continue, or nothing survives anyway.
  predicate Settles(own: TermMap, durable: nat, window: TermMap)
    requires window != []
  {
    || own == [] || durable == 0 || window[0] in own || window[0].base == 0
    || window[0].term == 2 || own[0].term >= window[0].term
  }

  // MAIN RESULT.  What survives a reconcile is exact for every leader map that could have shipped the window
  // if and only if the follower's own map and the window settle it.
  lemma WindowSettlesIff(own: TermMap, durable: nat, leader: TermMap)
    requires Strict(own) && (if own == [] then durable == 0 else own[0].base == 0)
    requires Ships(own, leader, WireTail(leader)) && Reconciled(own, durable, WireTail(leader)).Kept?
    ensures var window := WireTail(leader); var v := Reconciled(own, durable, window).validUpTo;
            (forall l | Ships(own, l, window) :: FirstDifference(own, durable, l, v)) <==> Settles(own, durable, window)
  {
    var window := WireTail(leader);
    var v := Reconciled(own, durable, window).validUpTo;
    if Settles(own, durable, window) {
      forall l | Ships(own, l, window) ensures FirstDifference(own, durable, l, v) {
        SettledIsExact(own, durable, l, window);
      }
    } else {
      var l := OtherLeader(own, durable, leader, window);
      assert Ships(own, l, window);
    }
  }

  lemma SettledIsExact(own: TermMap, durable: nat, l: TermMap, window: TermMap)
    requires Strict(own) && (if own == [] then durable == 0 else own[0].base == 0) && Ships(own, l, window)
    requires Settles(own, durable, window) && Reconciled(own, durable, window).Kept?
    ensures FirstDifference(own, durable, l, Reconciled(own, durable, window).validUpTo)
  {
    var w := |l| - |window|;
    assert window == l[w..] && window[0] == l[w];
    ReconcileIsExact(own, durable, l, w);
    var v := Reconciled(own, durable, window).validUpTo;
    if w > 0 && v > 0 && l[w] !in own {
      IndexOfIs(own, l[w], 0);
      OneHistoryAgrees(own, durable, l, w, v);
    }
  }

  // A window of term 2 whose start we lack can only continue term 1 from byte 0.
  lemma OneHistoryAgrees(own: TermMap, durable: nat, l: TermMap, w: nat, v: nat)
    requires Strict(own) && Strict(l) && own != [] && own[0].base == 0 && 0 < w < |l| && l[0].base == 0
    requires v == CutOutside(own, durable, l[w]) && v > 0 && (l[w].term == 2 || own[0].term >= l[w].term)
    ensures AgreeBelow(own, l, v)
  {
    FirstFromIs(own, l[w].term, 0);
    var i := FirstFrom(own, l[w].term, 0);
    TermsClimb(l, w);
    assert own[0].term == l[0].term == 1 && w == 1;
    forall p: nat | p < v ensures TermAt(own, p) == TermAt(l, p) {
      CoverIs(own, 0, p);
      CoverIs(l, 0, p);
    }
  }

  lemma {:induction false} TermsClimb(m: TermMap, i: nat)
    requires Ascending(m) && i < |m|
    ensures m[i].term >= m[0].term + i
  {
    if i > 0 { TermsClimb(m, i - 1); }
  }

  // Otherwise another leader, whose first term is not ours, ships the same window.
  lemma OtherLeader(own: TermMap, durable: nat, leader: TermMap, window: TermMap) returns (l: TermMap)
    requires Strict(own) && own != [] && own[0].base == 0 && window == WireTail(leader) && Ships(own, leader, window)
    requires !Settles(own, durable, window) && Reconciled(own, durable, window).Kept?
    ensures Ships(own, l, window)
    ensures !FirstDifference(own, durable, l, Reconciled(own, durable, window).validUpTo)
  {
    var w := |leader| - |window|;
    assert window == leader[w..] && window[0] == leader[w] && w > 0;
    assert leader[0].term < leader[w].term;
    l := [Entry(if own[0].term == 1 then 2 else 1, 0)] + window;
    assert l[1..] == window && |window| == MAX_WIRE_ENTRIES;
    OtherIsStrict(leader, w, l);
    WindowIsForeign(own, leader, w);
    assert MapsMatch(own, l);
    SomethingSurvives(own, durable, window);
    CoverIs(own, 0, 0);
    CoverIs(l, 0, 0);
    assert TermAt(own, 0) != TermAt(l, 0);
  }

  lemma OtherIsStrict(leader: TermMap, w: nat, l: TermMap)
    requires Strict(leader) && w < |leader| && leader[w].base > 0 && leader[w].term > 2
    requires l != [] && l[0].base == 0 && 1 <= l[0].term <= 2 && l[1..] == leader[w..]
    ensures Strict(l)
  {
    assert forall i | 0 < i < |l| :: l[i] == l[1..][i - 1] == leader[w + i - 1];
  }

  // We hold no entry of a window whose start we lack.
  lemma WindowIsForeign(own: TermMap, leader: TermMap, w: nat)
    requires Strict(own) && Strict(leader) && MapsMatch(own, leader) && w < |leader| && leader[w] !in own
    ensures forall k | w <= k < |leader| :: leader[k] !in own
  {
    forall k | w <= k < |leader| ensures leader[k] !in own {
      if leader[k] in own {
        var i :| 0 <= i < |own| && own[i] == leader[k];
        EntryBelow(own, i, leader, w, k);
      }
    }
  }

  lemma EntryBelow(own: TermMap, i: nat, leader: TermMap, w: nat, k: nat)
    requires Strict(own) && Strict(leader) && MapsMatch(own, leader)
    requires i < |own| && w <= k < |leader| && own[i] == leader[k]
    ensures leader[w] in own
  {
    if w < k {
      var p := leader[w].base;
      assert AgreeBelow(own, leader, own[i].base);
      CoverIs(leader, w, p);
      var c := Cover(own, p);
      assert TermAt(own, p) == leader[w].term >= 1;
      CoverIs(own, c, own[c].base);
      if own[c].base < p { EarlierTerm(leader, w, own[c].base); }
      assert own[c] in own;
    }
  }

  lemma EarlierTerm(m: TermMap, i: nat, p: nat)
    requires Ascending(m) && i < |m| && p < m[i].base
    ensures TermAt(m, p) < m[i].term
  {
    CoverBefore(m, i, p);
  }

  lemma SomethingSurvives(own: TermMap, durable: nat, window: TermMap)
    requires Strict(own) && own != [] && own[0].base == 0 && window != [] && window[0].base > 0
    requires !Settles(own, durable, window) && Reconciled(own, durable, window).Kept?
    ensures Reconciled(own, durable, window).validUpTo > 0
  {
    IndexOfIs(own, window[0], 0);
    FirstFromIs(own, window[0].term, 0);
  }

  // ------------------------------------------------------------- the window's limit

  // A follower two terms of whose history the leader's window no longer reaches.
  const STRANDED: TermMap := [Entry(1, 0), Entry(2, 100), Entry(5, 300)]

  // The leader's terms from 70 on fill the window.
  function LateTerms(): TermMap {
    seq(64, i requires 0 <= i < 64 => Entry(70 + i, 200 + 10 * i))
  }

  function LongMap(): TermMap {
    [Entry(1, 0), Entry(3, 100)] + LateTerms()
  }

  // The same follower after it has streamed the leader's term 70 on top of what it kept.
  const BLESSED: TermMap := [Entry(1, 0), Entry(2, 100), Entry(70, 200)]

  lemma LongMapIs()
    ensures WireTail(LongMap()) == LateTerms() == LongMap()[2..]
    ensures LongMap()[0] == Entry(1, 0) && LongMap()[1] == Entry(3, 100) && LongMap()[2] == Entry(70, 200)
    ensures Strict(LongMap())
  {
    var l := LongMap();
    forall i | 2 <= i < |l| ensures l[i] == Entry(68 + i, 180 + 10 * i) { assert l[i] == LateTerms()[i - 2]; }
  }

  // The window can hide a divergence: the follower keeps bytes [100, 200) of term 2 where the leader has
  // term 3, and once it has streamed term 70 the leader's window finds nothing wrong with it.
  lemma WindowHidesDivergence()
    ensures Strict(STRANDED) && Strict(LongMap()) && MapsMatch(STRANDED, LongMap())
    ensures Reconciled(STRANDED, 400, WireTail(LongMap())) == Kept(200, [Entry(1, 0), Entry(2, 100)])
    ensures TermAt(STRANDED, 100) == 2 && TermAt(LongMap(), 100) == 3
    ensures Ascending(BLESSED) && Reconciled(BLESSED, 210, WireTail(LongMap())) == Kept(210, BLESSED)
    ensures TermAt(BLESSED, 100) == 2
  {
    LongMapIs();
    StrandedMatches();
    StrandedKeeps();
    BlessedIsClean();
    TermsAtHundred();
  }

  lemma TermsAtHundred()
    ensures Ascending(STRANDED) && Ascending(LongMap()) && Ascending(BLESSED)
    ensures TermAt(STRANDED, 100) == 2 && TermAt(LongMap(), 100) == 3 && TermAt(BLESSED, 100) == 2
  {
    LongMapIs();
    CoverIs(STRANDED, 1, 100);
    CoverIs(LongMap(), 1, 100);
    CoverIs(BLESSED, 1, 100);
  }

  lemma StrandedMatches()
    ensures Strict(STRANDED) && Strict(LongMap()) && MapsMatch(STRANDED, LongMap())
  {
    LongMapIs();
    var l := LongMap();
    forall j | 2 <= j < |l| ensures l[j].term >= 70 { assert l[j] == LateTerms()[j - 2]; }
    SharedAtZero(l);
  }

  // The only entry the two maps can share is the first.
  lemma SharedAtZero(l: TermMap)
    requires Ascending(STRANDED) && Ascending(l) && |l| >= 2 && l[0] == Entry(1, 0) && l[1] == Entry(3, 100)
    requires forall j | 2 <= j < |l| :: l[j].term >= 70
    ensures MapsMatch(STRANDED, l)
  {
    forall i, j | 0 <= i < |STRANDED| && 0 <= j < |l| && STRANDED[i] == l[j] ensures STRANDED[i].base == 0 {
      assert j < 2;
    }
  }

  lemma StrandedKeeps()
    ensures Reconciled(STRANDED, 400, LateTerms()) == Kept(200, [Entry(1, 0), Entry(2, 100)])
  {
    var first := LateTerms()[0];
    IndexOfIs(STRANDED, first, 0);
    FirstFromIs(STRANDED, first.term, 0);
    assert CutOutside(STRANDED, 400, first) == 200;
    BelowOfThree(STRANDED[0], STRANDED[1], STRANDED[2], 200);
  }

  lemma BelowOfThree(a: Entry, b: Entry, c: Entry, cut: nat)
    requires a.base < cut && b.base < cut && c.base >= cut
    ensures Below([a, b, c], cut) == [a, b]
  {
    assert [a, b, c][..2] == [a, b];
    AllBelow([a, b], cut);
  }

  lemma BlessedIsClean()
    ensures Reconciled(BLESSED, 210, LateTerms()) == Kept(210, BLESSED)
  {
    var w := LateTerms();
    assert IndexOf(BLESSED, w[0], 2) == 2 && IndexOf(BLESSED, w[0], 1) == 2 && IndexOf(BLESSED, w[0], 0) == 2;
    assert Run(BLESSED, 2, w, 1) == 1 && Run(BLESSED, 2, w, 0) == 1;
    assert w[1] == Entry(71, 210);
    assert BLESSED[..3] == BLESSED && BLESSED[3..] == [];
  }
}
