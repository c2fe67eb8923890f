/**
The reconcile kernel, which sees only term maps, carries out the protocol's reconcile step,
which is stated on logs.
 */
module LogMaps {
  import opened Reconcile
  import C = ClusterConfig
  import P = Protocol
  import Shape = ProtocolShape
  import Steps = ProtocolSteps
  import Theorems = ProtocolTheorems

  // ------------------------------------------------------------- the map of a log

  // One entry where each term begins.
  function MapOf(l: P.Log): TermMap {
    if l == [] then []
    else
      var m := MapOf(l[..|l| - 1]);
      var f := l[|l| - 1];
      if m != [] && m[|m| - 1].term == f.term then m else m + [Entry(f.term, |l| - 1)]
  }

  // Terms start at 1 and do not fall.
  ghost predicate Rising(l: P.Log) {
    l == [] || (var front, f := l[..|l| - 1], l[|l| - 1]; Rising(front) && 1 <= f.term && P.LastTerm(front) <= f.term)
  }

  lemma StrictSnoc(m: TermMap, e: Entry)
    requires Strict(m) && e.term >= 1 && (m != [] ==> m[|m| - 1].term < e.term && m[|m| - 1].base < e.base)
    ensures Strict(m + [e])
  {
    forall i | 0 <= i < |m| ensures m[i].term < e.term && m[i].base < e.base {
      if i < |m| - 1 { assert m[i].term < m[|m| - 1].term && m[i].base < m[|m| - 1].base; }
    }
  }

  // The map ends in the log's last term, starts at its start, and has every base inside it.
  ghost predicate MapEnds(l: P.Log, m: TermMap) {
    if l == [] then m == []
    else m != [] && m[|m| - 1].term == P.LastTerm(l) && m[|m| - 1].base < |l| && m[0].base == 0
  }

  lemma {:induction false} MapOfIs(l: P.Log)
    requires Rising(l)
    ensures Strict(MapOf(l)) && MapEnds(l, MapOf(l))
  {
    if l != [] {
      var front, f := l[..|l| - 1], l[|l| - 1];
      MapOfIs(front);
      var m := MapOf(front);
      if m == [] || m[|m| - 1].term != f.term { StrictSnoc(m, Entry(f.term, |l| - 1)); }
    }
  }

  // A position's term in the map is the term of the frame there, and the last term above the log.
  lemma {:induction false} MapTerms(l: P.Log, p: nat)
    requires Rising(l) && l != []
    ensures Strict(MapOf(l)) && TermAt(MapOf(l), p) == P.TermBelow(l, p + 1)
    decreases |l|
  {
    MapOfIs(l);
    var front, f := l[..|l| - 1], l[|l| - 1];
    MapOfIs(front);
    var m := MapOf(front);
    BelowOfFront(l, p);
    if m == [] {
      CoverIs(MapOf(l), 0, p);
    } else if m[|m| - 1].term == f.term {
      assert MapOf(l) == m;
      MapTerms(front, p);
    } else {
      assert MapOf(l) == m + [Entry(f.term, |front|)];
      if p < |front| { MapTerms(front, p); }
      SnocTerm(m, Entry(f.term, |front|), p);
    }
  }

  lemma BelowOfFront(l: P.Log, p: nat)
    requires l != []
    ensures var front, f := l[..|l| - 1], l[|l| - 1];
            P.TermBelow(l, p + 1) == if p < |front| then P.TermBelow(front, p + 1) else f.term
  {
  }

  lemma SnocTerm(m: TermMap, e: Entry, p: nat)
    requires Strict(m) && Strict(m + [e])
    ensures TermAt(m + [e], p) == if p < e.base then TermAt(m, p) else e.term
  {
    if p < e.base {
      assert (m + [e])[..|m|] == m;
      PrefixAgrees(m + [e], |m|, e.base);
    } else {
      CoverIs(m + [e], |m|, p);
    }
  }

  lemma BasesBelow(l: P.Log, m: TermMap, v: nat)
    requires Strict(m) && MapEnds(l, m) && |l| <= v
    ensures Below(m, v) == m
  {
    forall i | 0 <= i < |m| ensures m[i].base < v {
      if i < |m| - 1 { assert m[i].base < m[|m| - 1].base; }
    }
    AllBelow(m, v);
  }

  // The map of a prefix is the map cut there.
  lemma {:induction false} MapOfPrefix(l: P.Log, v: nat)
    requires Rising(l) && v <= |l|
    ensures MapOf(l[..v]) == Below(MapOf(l), v)
    decreases |l|
  {
    MapOfIs(l);
    if v == |l| {
      assert l[..v] == l;
      BasesBelow(l, MapOf(l), v);
    } else {
      var front, f := l[..|l| - 1], l[|l| - 1];
      MapOfPrefix(front, v);
      assert front[..v] == l[..v];
      var m, e := MapOf(front), Entry(f.term, |front|);
      assert (m + [e])[..|m|] == m && Below(m + [e], v) == Below(m, v) + [];
    }
  }

  // ------------------------------------------------------------- which map survives

  // The last entry was opened at the frontier and the leader's map has it too.
  ghost predicate SharedFrontier(own: TermMap, durable: nat, leader: TermMap, v: nat) {
    v == durable && own != [] && own[|own| - 1].base == durable && own[|own| - 1] in leader
  }

  ghost predicate WholeMaps(own: TermMap, durable: nat, leader: TermMap) {
    && Strict(own) && Strict(leader) && leader != [] && leader[0].base == 0
    && (forall i | 0 <= i < |own| :: own[i].base <= durable) && (if own == [] then durable == 0 else own[0].base == 0)
  }

  // What survives at v: the whole map when its frontier entry is shared, and otherwise the entries below v.
  ghost predicate Survives(own: TermMap, durable: nat, leader: TermMap, r: Outcome) {
    r.Kept? && r.map_ == if SharedFrontier(own, durable, leader, r.validUpTo) then own else Below(own, r.validUpTo)
  }

  lemma KeptMapIs(own: TermMap, durable: nat, leader: TermMap)
    requires WholeMaps(own, durable, leader)
    ensures Survives(own, durable, leader, Reconciled(own, durable, leader))
  {
    IndexOfIs(own, leader[0], 0);
    var j := IndexOf(own, leader[0], 0);
    if j < |own| {
      var n, v := AnchoredCut(own, durable, leader, j);
      RunMapIs(own, durable, j, leader, n - j, v);
    } else if own != [] {
      OutsideMapIs(own, durable, leader);
      assert Reconciled(own, durable, leader) == Kept(0, []);
    }
  }

  lemma OutsideMapIs(own: TermMap, durable: nat, leader: TermMap)
    requires WholeMaps(own, durable, leader) && own != [] && leader[0] !in own
    ensures CutOutside(own, durable, leader[0]) == 0 && Below(own, 0) == []
    ensures !SharedFrontier(own, durable, leader, 0)
  {
    FirstFromIs(own, leader[0].term, 0);
    NothingBelow(own, 0);
    assert forall x | 0 < x < |leader| :: leader[0].base < leader[x].base;
  }

  // What survives a window whose start we hold.
  lemma AnchoredCut(own: TermMap, durable: nat, leader: TermMap, j: nat) returns (n: nat, v: nat)
    requires Ascending(own) && leader != [] && j < |own| && own[j] == leader[0] && j == IndexOf(own, leader[0], 0)
    ensures j < n <= |own| && Reconciled(own, durable, leader) == Kept(v, own[..n])
    ensures PartsAt(own, durable, j, leader, 0, n - j, v) && forall i | n <= i < |own| :: own[i].base >= v
  {
    n := RunKept(own, durable, j, leader);
    v := CutAfter(own, durable, j, leader, n - j);
    InsideIs(own, durable, leader, j, n, v);
    assert leader[0..] == leader;
    RunParts(own, durable, j, leader, 0, n - j);
  }

  lemma RunMapIs(own: TermMap, durable: nat, j: nat, leader: TermMap, k: nat, v: nat)
    requires WholeMaps(own, durable, leader) && PartsAt(own, durable, j, leader, 0, k, v)
    requires forall i | j + k <= i < |own| :: own[i].base >= v
    ensures Survives(own, durable, leader, Kept(v, own[..j + k]))
  {
    var n := j + k;
    var e := own[n - 1];
    assert e == leader[k - 1] && e in leader;
    if e.base == v {
      FrontierRun(own, durable, leader, k, n, v);
      assert own[..n] == own;
    } else {
      NotShared(own, durable, j, leader, k, v);
      var b := BelowIs(own, v);
      PrefixLength(own, n, b, v);
    }
  }

  // A run that ends below the cut leaves no shared entry at the frontier.
  lemma NotShared(own: TermMap, durable: nat, j: nat, leader: TermMap, k: nat, v: nat)
    requires WholeMaps(own, durable, leader) && PartsAt(own, durable, j, leader, 0, k, v)
    requires own[j + k - 1].base < v && forall i | j + k <= i < |own| :: own[i].base >= v
    ensures !SharedFrontier(own, durable, leader, v)
  {
    assert forall x | 0 <= x < k :: leader[x].base < v by {
      assert forall x | 0 <= x < k - 1 :: leader[x].base < leader[k - 1].base;
    }
    assert forall x | k < x < |leader| :: v < leader[x].base;
    assert j + k < |own| - 1 ==> own[j + k].base < own[|own| - 1].base;
  }

  // A run that ends exactly at the cut is the whole map.
  lemma FrontierRun(own: TermMap, durable: nat, leader: TermMap, k: nat, n: nat, v: nat)
    requires WholeMaps(own, durable, leader) && 1 <= n <= |own| && 1 <= k <= |leader| && own[n - 1].base == v
    requires v <= durable
    requires v < durable ==> (n < |own| && v == own[n].base) || (k < |leader| && v == leader[k].base)
    requires own[n - 1] == leader[k - 1]
    ensures v == durable && n == |own|
  {
    assert n < |own| ==> own[n - 1].base < own[n].base;
    assert k < |leader| ==> leader[k - 1].base < leader[k].base;
  }

  lemma PrefixLength(own: TermMap, n: nat, b: nat, v: nat)
    requires Strict(own) && 1 <= n <= |own| && b <= |own| && own[n - 1].base < v
    requires (forall i | 0 <= i < b :: own[i].base < v) && (forall i | b <= i < |own| :: own[i].base >= v)
    requires forall i | n <= i < |own| :: own[i].base >= v
    ensures b == n
  {
    assert n < |own| ==> own[n].base >= v;
  }

  // ------------------------------------------------------------- the step

  // A node's term map: where its log's terms begin, and a term opened at its end without bytes.
  function NodeMap(n: P.Node): TermMap {
    MapOf(n.log) + if n.mapTerm > P.LastTerm(n.log) then [Entry(n.mapTerm, |n.log|)] else []
  }

  lemma {:induction false} LogsRise(rs: P.Reigns, l: P.Log)
    requires Steps.ReignsFit(rs) && Shape.Matches(rs, l)
    ensures Rising(l)
  {
    if l != [] {
      var k := |l| - 1;
      Shape.MatchesPrefix(rs, l, k);
      LogsRise(rs, l[..k]);
      assert Shape.FrameFits(rs, l, k);
      if k > 0 { Steps.TermsRise(rs, l, k - 1, k); }
    }
  }

  // An entry stands where its term's first frame is.
  lemma EntryIs(l: P.Log, i: nat)
    requires Rising(l) && i < |MapOf(l)|
    ensures MapOf(l)[i].base < |l| && l[MapOf(l)[i].base].term == MapOf(l)[i].term
  {
    MapOfIs(l);
    var m := MapOf(l);
    var e := m[i];
    if i < |m| - 1 { assert e.base < m[|m| - 1].base; }
    MapTerms(l, e.base);
    CoverIs(m, i, e.base);
  }

  lemma EntryAt(l: P.Log, p: nat)
    requires Rising(l) && p < |l| && (p > 0 ==> l[p - 1].term != l[p].term)
    ensures Entry(l[p].term, p) in MapOf(l)
  {
    MapTerms(l, p);
    if p > 0 { MapTerms(l, p - 1); }
    MapOfIs(l);
    BeginsAt(MapOf(l), p, l[p].term);
  }

  // A term that changes at p has its entry there.
  lemma BeginsAt(m: TermMap, p: nat, term: nat)
    requires Strict(m) && TermAt(m, p) == term >= 1 && (p > 0 ==> TermAt(m, p - 1) != term)
    ensures Entry(term, p) in m
  {
    if p > 0 { CoverBack(m, p); }
    assert m[Cover(m, p)] in m;
  }

  // One position back the same entry covers, unless it begins here.
  lemma CoverBack(m: TermMap, p: nat)
    requires Ascending(m) && p > 0 && Cover(m, p) >= 0
    ensures m[Cover(m, p)].base == p || Cover(m, p - 1) == Cover(m, p)
  {
    var i := Cover(m, p);
    if m[i].base < p { CoverIs(m, i, p - 1); }
  }

  lemma NodeMapIs(n: P.Node)
    requires Rising(n.log) && n.mapTerm >= P.LastTerm(n.log)
    ensures Strict(NodeMap(n)) && (NodeMap(n) == [] ==> n.log == []) && (NodeMap(n) != [] ==> NodeMap(n)[0].base == 0)
    ensures forall i | 0 <= i < |NodeMap(n)| :: NodeMap(n)[i].base <= |n.log|
  {
    MapOfIs(n.log);
    var m, own := MapOf(n.log), NodeMap(n);
    if n.mapTerm > P.LastTerm(n.log) { StrictSnoc(m, Entry(n.mapTerm, |n.log|)); }
    forall i | 0 <= i < |own| ensures own[i].base <= |n.log| {
      if i < |m| { EntryIs(n.log, i); }
    }
  }

  lemma NodeTerms(n: P.Node, p: nat)
    requires Rising(n.log) && n.mapTerm >= P.LastTerm(n.log) && p < |n.log|
    ensures Strict(NodeMap(n)) && TermAt(NodeMap(n), p) == n.log[p].term
  {
    NodeMapIs(n);
    MapOfIs(n.log);
    MapTerms(n.log, p);
    if n.mapTerm > P.LastTerm(n.log) {
      SnocTerm(MapOf(n.log), Entry(n.mapTerm, |n.log|), p);
    } else {
      assert NodeMap(n) == MapOf(n.log);
    }
  }

  // A node and a leader that share an entry share the history below it.
  lemma SharedEntry(rs: P.Reigns, n: P.Node, t: nat, i: nat, j: nat)
    requires Fitting(rs, n, t) && i < |NodeMap(n)| && j < |MapOf(rs[t].log)| && NodeMap(n)[i] == MapOf(rs[t].log)[j]
    ensures var b := NodeMap(n)[i].base; b <= |n.log| && b <= |rs[t].log| && n.log[..b] == rs[t].log[..b]
  {
    var leader := rs[t].log;
    LogsRise(rs, n.log);
    LogsRise(rs, leader);
    EntryIs(leader, j);
    var b := NodeMap(n)[i].base;
    if i < |MapOf(n.log)| {
      EntryIs(n.log, i);
      Steps.SameTermSameHistory(rs, n.log, leader, b);
      assert n.log[..b] == n.log[..b + 1][..b] && leader[..b] == leader[..b + 1][..b];
    } else {
      assert Shape.FrameFits(rs, leader, b);
      assert leader[..b] == leader[..b + 1][..b] == rs[n.mapTerm].log[..b + 1][..b] == rs[n.mapTerm].log[..b];
    }
  }

  // A node's log and map, and a leader, as every run has them.
  ghost predicate Fitting(rs: P.Reigns, n: P.Node, t: nat) {
    && Steps.ReignsFit(rs) && Shape.Matches(rs, n.log) && Shape.MapFits(rs, n.log, n.mapTerm)
    && t in rs && Shape.ReignLogFits(rs, t) && n.mapTerm >= P.LastTerm(n.log)
  }

  lemma NodeMapsMatch(rs: P.Reigns, n: P.Node, t: nat)
    requires Fitting(rs, n, t)
    ensures Strict(NodeMap(n)) && Strict(MapOf(rs[t].log)) && MapsMatch(NodeMap(n), MapOf(rs[t].log))
    ensures WholeMaps(NodeMap(n), |n.log|, MapOf(rs[t].log))
  {
    var leader := rs[t].log;
    LogsRise(rs, n.log);
    LogsRise(rs, leader);
    NodeMapIs(n);
    MapOfIs(leader);
    var own, lead := NodeMap(n), MapOf(leader);
    forall i, j | 0 <= i < |own| && 0 <= j < |lead| && own[i] == lead[j] ensures AgreeBelow(own, lead, own[i].base) {
      SharedEntry(rs, n, t, i, j);
      forall p: nat | p < own[i].base ensures TermAt(own, p) == TermAt(lead, p) {
        NodeTerms(n, p);
        MapTerms(leader, p);
        assert n.log[p] == n.log[..own[i].base][p] == leader[..own[i].base][p] == leader[p];
      }
    }
  }

  lemma {:induction false} AgreedUnique(l: P.Log, leader: P.Log, p: nat, v: nat)
    requires p <= v <= |l| && (forall q: nat | p <= q < v :: l[q].term == P.TermBelow(leader, q + 1))
    requires v < |l| ==> l[v].term != P.TermBelow(leader, v + 1)
    ensures P.Agreed(l, leader, p) == v
    decreases v - p
  {
    if p < v { AgreedUnique(l, leader, p + 1, v); }
  }

  lemma KernelLength(rs: P.Reigns, n: P.Node, t: nat, v: nat)
    requires Fitting(rs, n, t) && Strict(NodeMap(n)) && Strict(MapOf(rs[t].log))
    requires FirstDifference(NodeMap(n), |n.log|, MapOf(rs[t].log), v)
    ensures v == P.Agreed(n.log, rs[t].log, 0)
  {
    var leader := rs[t].log;
    LogsRise(rs, n.log);
    LogsRise(rs, leader);
    forall q: nat | q < |n.log|
      ensures TermAt(NodeMap(n), q) == n.log[q].term && TermAt(MapOf(leader), q) == P.TermBelow(leader, q + 1)
    {
      NodeTerms(n, q);
      MapTerms(leader, q);
    }
    AgreedUnique(n.log, leader, 0, v);
  }

  // The frontier entry survives exactly where the leader's next frame is of its term.
  lemma FrontierIff(rs: P.Reigns, n: P.Node, t: nat)
    requires Fitting(rs, n, t) && n.log <= rs[t].log && n.mapTerm > P.LastTerm(n.log)
    ensures Entry(n.mapTerm, |n.log|) in MapOf(rs[t].log) <==>
            |n.log| < |rs[t].log| && rs[t].log[|n.log|].term == n.mapTerm
  {
    var leader, k := rs[t].log, |n.log|;
    LogsRise(rs, leader);
    if Entry(n.mapTerm, k) in MapOf(leader) {
      var j :| 0 <= j < |MapOf(leader)| && MapOf(leader)[j] == Entry(n.mapTerm, k);
      EntryIs(leader, j);
    }
    if k < |leader| && leader[k].term == n.mapTerm {
      assert k > 0 ==> leader[k - 1] == n.log[k - 1];
      EntryAt(leader, k);
    }
  }

  lemma KernelMap(rs: P.Reigns, n: P.Node, t: nat, v: nat)
    requires Fitting(rs, n, t) && v == P.Agreed(n.log, rs[t].log, 0) && v <= |n.log| && !n.truncating
    ensures var own, lead := NodeMap(n), MapOf(rs[t].log);
            NodeMap(Settled(n, rs[t].log)) == if SharedFrontier(own, |n.log|, lead, v) then own else Below(own, v)
  {
    var leader := rs[t].log;
    var own, lead := NodeMap(n), MapOf(leader);
    LogsRise(rs, n.log);
    Steps.AgreedIs(rs, n.log, t, 0);
    MapOfPrefix(n.log, v);
    FrontierCut(n, v);
    SteppedMap(n, leader, v);
    assert n.log[..|n.log|] == n.log;
    if v == |n.log| && n.mapTerm > P.LastTerm(n.log) {
      FrontierIff(rs, n, t);
      LastIsFrontier(n);
    } else {
      WithoutFrontier(n, lead, v);
    }
  }

  // The node a reconcile leaves, once its cut, if any, is acknowledged.
  function Settled(n: P.Node, leader: P.Log): P.Node {
    var m := P.Reconciling(n, leader);
    if m.truncating then P.Settling(m) else m
  }

  // The map of the node the step leaves, in terms of the map before.
  lemma SteppedMap(n: P.Node, leader: P.Log, v: nat)
    requires v == P.Agreed(n.log, leader, 0) && v <= |n.log| && n.mapTerm >= P.LastTerm(n.log) && !n.truncating
    ensures NodeMap(Settled(n, leader)) ==
            if v == |n.log| < |leader| && leader[v].term == n.mapTerm then NodeMap(n) else MapOf(n.log[..v])
  {
    assert n.log[..|n.log|] == n.log;
    assert MapOf(n.log[..v]) + [] == MapOf(n.log[..v]);
  }

  lemma LastIsFrontier(n: P.Node)
    requires n.mapTerm > P.LastTerm(n.log)
    ensures NodeMap(n) != [] && NodeMap(n)[|NodeMap(n)| - 1] == Entry(n.mapTerm, |n.log|)
  {
  }

  // With no entry at the frontier to share, the whole map lies below the end of the log.
  lemma WithoutFrontier(n: P.Node, lead: TermMap, v: nat)
    requires Rising(n.log) && v <= |n.log| && n.mapTerm >= P.LastTerm(n.log)
    requires !(v == |n.log| && n.mapTerm > P.LastTerm(n.log))
    ensures !SharedFrontier(NodeMap(n), |n.log|, lead, v)
    ensures v == |n.log| ==> NodeMap(n) == MapOf(n.log) == Below(MapOf(n.log), v)
  {
    MapOfIs(n.log);
    if v == |n.log| {
      assert MapOf(n.log) + [] == MapOf(n.log);
      BasesBelow(n.log, MapOf(n.log), v);
    }
  }

  // A frontier entry is never below the cut.
  lemma FrontierCut(n: P.Node, v: nat)
    requires v <= |n.log|
    ensures Below(NodeMap(n), v) == Below(MapOf(n.log), v)
  {
    var m, e := MapOf(n.log), Entry(n.mapTerm, |n.log|);
    assert (m + [e])[..|m|] == m && m + [] == m;
    assert Below(m + [e], v) == Below(m, v) + [];
  }

  // MAIN RESULT.  In every run, given the leader's whole map, the kernel keeps exactly the frames the
  // protocol's reconcile step keeps once its cut is acknowledged, and leaves exactly the map of that node.
  lemma KernelIsTheStepInRuns(s0: P.State, steps: seq<P.Step>, s: P.State, i: C.NodeId)
    requires P.Reaches(s0, steps, s) && P.Can(s, P.Reconcile(i))
    ensures var n, judged := s.nodes[i], P.Do(s, P.Reconcile(i));
            var m := (if judged.nodes[i].truncating then P.Do(judged, P.Truncated(i)) else judged).nodes[i];
            Reconciled(NodeMap(n), |n.log|, MapOf(s.reigns[n.term].log)) == Kept(|m.log|, NodeMap(m))
  {
    var n := s.nodes[i];
    Theorems.RunIsSafe(s0, steps, s);
    assert Shape.NodeFits(s, i, n) && Shape.ReignLogFits(s.reigns, n.term);
    Steps.LastTermBelowMap(s.reigns, n.log, n.mapTerm, |n.log|);
    assert n.log[..|n.log|] == n.log;
    KernelIsTheStep(s.reigns, n);
  }

  lemma KernelIsTheStep(rs: P.Reigns, n: P.Node)
    requires Fitting(rs, n, n.term) && !n.truncating
    ensures var leader := rs[n.term].log; var m := Settled(n, leader);
            Reconciled(NodeMap(n), |n.log|, MapOf(leader)) == Kept(|m.log|, NodeMap(m))
  {
    var leader := rs[n.term].log;
    var own, lead := NodeMap(n), MapOf(leader);
    NodeMapsMatch(rs, n, n.term);
    assert lead[0..] == lead;
    ReconcileIsExact(own, |n.log|, lead, 0);
    KeptMapIs(own, |n.log|, lead);
    var r := Reconciled(own, |n.log|, lead);
    KernelLength(rs, n, n.term, r.validUpTo);
    P.AgreedIsBounded(n.log, leader, 0);
    KernelMap(rs, n, n.term, r.validUpTo);
  }
}
