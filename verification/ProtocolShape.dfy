/**
The structural invariant of the protocol: what every step keeps of the nodes, the reigns
and the messages in flight.  Election safety and log matching are part of it.
 */
module ProtocolShape {
  import opened ClusterConfig
  import opened Protocol

  // ------------------------------------------------------------- logs and reigns

  // A frame of term t sits where t's leader put it, on the same history.
  ghost predicate FrameFits(rs: Reigns, l: Log, p: nat)
    requires p < |l|
  {
    var t := l[p].term;
    t in rs && rs[t].base <= p < |rs[t].log| && l[..p + 1] == rs[t].log[..p + 1]
  }

  ghost predicate Matches(rs: Reigns, l: Log) {
    forall p: nat | p < |l| :: FrameFits(rs, l, p)
  }

  // A log under a term map whose last term is `mapTerm`.
  ghost predicate MapFits(rs: Reigns, l: Log, mapTerm: nat) {
    if mapTerm == 0 then l == [] else mapTerm in rs && l <= rs[mapTerm].log && rs[mapTerm].base <= |l|
  }

  // With the gate open the log is a prefix of the streaming leader's, and what comes next suits the map.
  ghost predicate GateFits(rs: Reigns, n: Node) {
    n.gate ==>
      if n.stream == 0 then n.log == [] && n.mapTerm == 0
      else
        && n.stream in rs && n.log <= rs[n.stream].log && n.mapTerm <= n.stream
        && (|n.log| < |rs[n.stream].log| ==> rs[n.stream].log[|n.log|].term >= n.mapTerm)
  }

  // What a candidate stood with is still below its log while its term has no leader.
  ghost predicate BidFits(s: State, i: NodeId, n: Node) {
    n.role == Candidate ==>
      && n.bid in s.requests && n.bid.term == n.term && n.bid.from == i
      && (n.term !in s.reigns && n.bid.lastTerm > 0 ==>
            && n.bid.lastTerm in s.reigns && n.bid.length <= |s.reigns[n.bid.lastTerm].log|
            && s.reigns[n.bid.lastTerm].log[..n.bid.length] <= n.log)
  }

  // A cut in flight was decided by the leader of `vouched`: below it the histories are one, and they part there.
  ghost predicate CutFits(rs: Reigns, n: Node) {
    n.truncating ==>
      && n.role != Leader && !n.gate && (n.role == Candidate ==> n.term == n.vouched)
      && n.vouched in rs && n.mapTerm <= n.vouched <= n.term
      && n.validated < |n.log| && n.validated <= |rs[n.vouched].log|
      && n.log[..n.validated] == rs[n.vouched].log[..n.validated] && n.log[n.validated].term != n.vouched
      && (n.validated < |rs[n.vouched].log| ==> n.log[n.validated].term != rs[n.vouched].log[n.validated].term)
  }

  ghost predicate TermsFit(s: State, i: NodeId, n: Node) {
    && n.voteTerm <= n.term && n.stream <= n.term && n.mapTerm <= n.term
    && (n.role != Candidate ==> n.stream == n.term)
    && (n.role == Candidate ==> n.voteTerm == n.term && n.votedFor == i)
    && (n.role == Leader ==> n.term in s.reigns && s.reigns[n.term].leader == i && n.mapTerm == n.term && !n.gate)
  }

  ghost predicate NodeFits(s: State, i: NodeId, n: Node) {
    && TermsFit(s, i, n) && Matches(s.reigns, n.log) && MapFits(s.reigns, n.log, n.mapTerm)
    && GateFits(s.reigns, n) && BidFits(s, i, n) && CutFits(s.reigns, n)
  }

  // A leader's log: older terms below its base, its own term from there on.
  ghost predicate ReignLogFits(rs: Reigns, t: nat)
    requires t in rs
  {
    && rs[t].base < |rs[t].log| && Matches(rs, rs[t].log)
    && (forall p: nat | p < |rs[t].log| :: if p < rs[t].base then rs[t].log[p].term < t else rs[t].log[p].term == t)
  }

  // The leader was elected by a quorum and will neither stand for nor stream below its term again.
  ghost predicate ElectionFits(s: State, t: nat)
    requires t in s.reigns
  {
    var reign := s.reigns[t];
    && IsMajority(reign.voters, s.nodes.Keys) && (forall j | j in reign.voters :: Grant(t, j, reign.leader) in s.grants)
    && reign.leader in s.nodes && var n := s.nodes[reign.leader];
    n.voteTerm >= t && n.stream >= t && !(n.role == Candidate && n.term == t)
  }

  ghost predicate GrantFits(s: State, g: Grant) {
    && g.voter in s.nodes && g.candidate in s.nodes && g.term >= 1
    && s.nodes[g.voter].voteTerm >= g.term && s.nodes[g.candidate].voteTerm >= g.term
    && (s.nodes[g.voter].voteTerm == g.term ==> s.nodes[g.voter].votedFor == g.candidate)
    && (g.voter != g.candidate ==> s.nodes[g.voter].stream >= g.term)
  }

  ghost predicate RequestFits(s: State, r: Request) {
    && r.from in s.nodes && s.nodes[r.from].voteTerm >= r.term && r.lastTerm < r.term
    && if r.lastTerm == 0 then r.length == 0
       else r.lastTerm in s.reigns && s.reigns[r.lastTerm].base <= r.length <= |s.reigns[r.lastTerm].log|
  }

  ghost predicate ReportFits(s: State, r: Report) {
    r.lastTerm == r.term && r.length >= 1 ==> r.term in s.reigns && r.length <= |s.reigns[r.term].log|
  }

  // Node i reported holding at least c frames that end in term t itself, to t's leader.
  ghost predicate Acked(s: State, t: nat, i: NodeId, c: nat) {
    exists r | r in s.reports :: r.term == t && r.node == i && r.lastTerm == t && r.length >= c
  }

  ghost predicate GossipFits(s: State, g: Gossip) {
    && g.term in s.reigns && s.reigns[g.term].base < g.commit <= |s.reigns[g.term].log|
    && IsMajority(g.holders, s.nodes.Keys) && forall j | j in g.holders :: Acked(s, g.term, j, g.commit)
  }

  // A voter grants one candidate a term.
  ghost predicate GrantsSingle(s: State) {
    forall a, b | a in s.grants && b in s.grants && a.term == b.term && a.voter == b.voter :: a.candidate == b.candidate
  }

  ghost predicate Shape(s: State) {
    && 0 !in s.reigns && GrantsSingle(s)
    && (forall i {:trigger NodeFits(s, i, s.nodes[i])} | i in s.nodes :: NodeFits(s, i, s.nodes[i]))
    && (forall t {:trigger ReignLogFits(s.reigns, t)} | t in s.reigns :: ReignLogFits(s.reigns, t))
    && (forall t {:trigger ElectionFits(s, t)} | t in s.reigns :: ElectionFits(s, t))
    && (forall g {:trigger GrantFits(s, g)} | g in s.grants :: GrantFits(s, g))
    && (forall r {:trigger RequestFits(s, r)} | r in s.requests :: RequestFits(s, r))
    && (forall r {:trigger ReportFits(s, r)} | r in s.reports :: ReportFits(s, r))
    && (forall g {:trigger GossipFits(s, g)} | g in s.gossip :: GossipFits(s, g))
  }

  // ------------------------------------------------------------- growth

  // Reigns are only added, and a leader only appends frames of its own term.
  ghost predicate ReignGrows(a: Reign, b: Reign, t: nat) {
    && a.leader == b.leader && a.voters == b.voters && a.base == b.base && a.log <= b.log
    && forall p: nat | |a.log| <= p < |b.log| :: b.log[p].term == t
  }

  ghost predicate ReignsGrow(a: Reigns, b: Reigns) {
    forall t | t in a :: t in b && ReignGrows(a[t], b[t], t)
  }

  // A node never takes back a vote, and what it promised by voting it keeps.
  ghost predicate Advances(n: Node, m: Node) {
    && n.voteTerm <= m.voteTerm && (n.voteTerm == m.voteTerm ==> n.votedFor == m.votedFor)
    && (n.stream <= m.stream || m.voteTerm <= m.stream)
    && (m.role == Candidate ==>
          m.stream == n.stream && ((n.role == Candidate && n.term == m.term) || m.term > n.voteTerm))
  }

  // From s to t: node i moves to m, everything else stays or grows.
  ghost predicate Moves(s: State, t: State, i: NodeId, m: Node) {
    && i in s.nodes && t.nodes == s.nodes[i := m] && Advances(s.nodes[i], m) && ReignsGrow(s.reigns, t.reigns)
    && s.requests <= t.requests && s.grants <= t.grants && s.reports <= t.reports && s.gossip <= t.gossip
  }

  lemma MatchesLater(a: Reigns, b: Reigns, l: Log)
    requires Matches(a, l) && ReignsGrow(a, b)
    ensures Matches(b, l)
  {
    forall p: nat | p < |l| ensures FrameFits(b, l, p) {
      assert FrameFits(a, l, p);
      var t := l[p].term;
      assert b[t].log[..p + 1] == a[t].log[..p + 1];
    }
  }

  lemma MatchesPrefix(rs: Reigns, l: Log, n: nat)
    requires Matches(rs, l) && n <= |l|
    ensures Matches(rs, l[..n])
  {
    forall p: nat | p < n ensures FrameFits(rs, l[..n], p) {
      assert FrameFits(rs, l, p);
      assert l[..n][..p + 1] == l[..p + 1];
    }
  }

  lemma NodeStays(s: State, t: State, j: NodeId, n: Node)
    requires NodeFits(s, j, n) && ReignsGrow(s.reigns, t.reigns) && s.requests <= t.requests
    ensures NodeFits(t, j, n)
  {
    MatchesLater(s.reigns, t.reigns, n.log);
    GateStays(s.reigns, t.reigns, n);
    BidStays(s, t, j, n);
    CutStays(s.reigns, t.reigns, n);
  }

  lemma GateStays(a: Reigns, b: Reigns, n: Node)
    requires GateFits(a, n) && ReignsGrow(a, b)
    ensures GateFits(b, n)
  {
  }

  lemma CutStays(a: Reigns, b: Reigns, n: Node)
    requires CutFits(a, n) && ReignsGrow(a, b)
    ensures CutFits(b, n)
  {
    if n.truncating {
      var t := n.vouched;
      assert ReignGrows(a[t], b[t], t);
      assert b[t].log[..n.validated] == a[t].log[..n.validated];
    }
  }

  lemma BidStays(s: State, t: State, j: NodeId, n: Node)
    requires BidFits(s, j, n) && ReignsGrow(s.reigns, t.reigns) && s.requests <= t.requests
    ensures BidFits(t, j, n)
  {
    if n.role == Candidate && n.term !in t.reigns && n.bid.lastTerm > 0 {
      assert n.term !in s.reigns;
      var a, b := s.reigns[n.bid.lastTerm].log, t.reigns[n.bid.lastTerm].log;
      assert a[..n.bid.length] == b[..n.bid.length];
    }
  }

  lemma ElectionStays(s: State, t: State, i: NodeId, m: Node, u: nat)
    requires Moves(s, t, i, m) && u in s.reigns && ElectionFits(s, u)
    ensures u in t.reigns && ElectionFits(t, u)
  {
    assert ReignGrows(s.reigns[u], t.reigns[u], u);
    assert t.nodes.Keys == s.nodes.Keys;
  }

  lemma RequestStays(s: State, t: State, i: NodeId, m: Node, r: Request)
    requires Moves(s, t, i, m) && RequestFits(s, r)
    ensures RequestFits(t, r)
  {
    if r.lastTerm > 0 { assert ReignGrows(s.reigns[r.lastTerm], t.reigns[r.lastTerm], r.lastTerm); }
  }

  lemma AckedStays(s: State, t: State, u: nat, j: NodeId, c: nat)
    requires Acked(s, u, j, c) && s.reports <= t.reports
    ensures Acked(t, u, j, c)
  {
  }

  lemma GossipStays(s: State, t: State, i: NodeId, m: Node, g: Gossip)
    requires Moves(s, t, i, m) && GossipFits(s, g)
    ensures GossipFits(t, g)
  {
    assert ReignGrows(s.reigns[g.term], t.reigns[g.term], g.term);
    assert t.nodes.Keys == s.nodes.Keys;
    forall j | j in g.holders ensures Acked(t, g.term, j, g.commit) { AckedStays(s, t, g.term, j, g.commit); }
  }

  // What is new in t fits.
  ghost predicate NewsFits(s: State, t: State, i: NodeId, m: Node) {
    && NodeFits(t, i, m) && GrantsSingle(t)
    && (forall u | u in t.reigns && (u !in s.reigns || t.reigns[u] != s.reigns[u]) ::
          u != 0 && ReignLogFits(t.reigns, u))
    && (forall u | u in t.reigns && u !in s.reigns :: ElectionFits(t, u))
    && (forall g | g in t.grants - s.grants :: GrantFits(t, g))
    && (forall r | r in t.requests - s.requests :: RequestFits(t, r))
    && (forall r | r in t.reports - s.reports :: ReportFits(t, r))
    && (forall g | g in t.gossip - s.gossip :: GossipFits(t, g))
  }

  lemma ReignLogStays(s: State, t: State, u: nat)
    requires u in s.reigns && ReignLogFits(s.reigns, u) && ReignsGrow(s.reigns, t.reigns)
    requires u in t.reigns && t.reigns[u] == s.reigns[u]
    ensures ReignLogFits(t.reigns, u)
  {
    MatchesLater(s.reigns, t.reigns, s.reigns[u].log);
  }

  lemma ReportStays(s: State, t: State, r: Report)
    requires ReportFits(s, r) && ReignsGrow(s.reigns, t.reigns)
    ensures ReportFits(t, r)
  {
    if r.term in s.reigns { assert ReignGrows(s.reigns[r.term], t.reigns[r.term], r.term); }
  }

  // One node's move keeps the shape when what is new fits.
  lemma MoveKeepsShape(s: State, t: State, i: NodeId, m: Node)
    requires Shape(s) && Moves(s, t, i, m) && NewsFits(s, t, i, m)
    ensures Shape(t)
  {
    forall j | j in t.nodes ensures NodeFits(t, j, t.nodes[j]) {
      if j != i { NodeStays(s, t, j, s.nodes[j]); }
    }
    forall u | u in t.reigns ensures ReignLogFits(t.reigns, u) {
      if u in s.reigns && t.reigns[u] == s.reigns[u] { ReignLogStays(s, t, u); }
    }
    forall u | u in t.reigns ensures ElectionFits(t, u) {
      if u in s.reigns { ElectionStays(s, t, i, m, u); }
    }
    MessagesStay(s, t, i, m);
  }

  lemma MessagesStay(s: State, t: State, i: NodeId, m: Node)
    requires Shape(s) && Moves(s, t, i, m) && NewsFits(s, t, i, m)
    ensures forall g | g in t.grants :: GrantFits(t, g)
    ensures forall r | r in t.requests :: RequestFits(t, r)
    ensures forall r | r in t.reports :: ReportFits(t, r)
    ensures forall g | g in t.gossip :: GossipFits(t, g)
  {
    forall g | g in t.grants ensures GrantFits(t, g) {
      if g in s.grants { assert GrantFits(s, g); }
    }
    forall r | r in t.requests ensures RequestFits(t, r) {
      if r in s.requests { RequestStays(s, t, i, m, r); }
    }
    forall r | r in t.reports ensures ReportFits(t, r) {
      if r in s.reports { ReportStays(s, t, r); }
    }
    forall g | g in t.gossip ensures GossipFits(t, g) {
      if g in s.gossip { GossipStays(s, t, i, m, g); }
    }
  }
}
