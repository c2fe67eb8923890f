/**
Every step of the protocol keeps its shape.
 */
module ProtocolSteps {
  import opened ClusterConfig
  import opened Numbers
  import opened Protocol
  import opened ProtocolShape

  // ------------------------------------------------------------- facts about logs

  ghost predicate ReignsFit(rs: Reigns) {
    0 !in rs && forall t {:trigger ReignLogFits(rs, t)} | t in rs :: ReignLogFits(rs, t)
  }

  // A log's last term leads to the reign it is a prefix of.
  lemma LastTermFits(rs: Reigns, l: Log)
    requires ReignsFit(rs) && Matches(rs, l)
    ensures MapFits(rs, l, LastTerm(l))
  {
    if l != [] {
      assert FrameFits(rs, l, |l| - 1);
      assert l[..|l|] == l;
    }
  }

  // Terms do not fall along a log that matches.
  lemma TermsRise(rs: Reigns, l: Log, p: nat, q: nat)
    requires ReignsFit(rs) && Matches(rs, l) && p <= q < |l|
    ensures l[p].term <= l[q].term
  {
    assert FrameFits(rs, l, q);
    var t := l[q].term;
    assert l[p] == l[..q + 1][p] == rs[t].log[..q + 1][p] == rs[t].log[p];
    assert ReignLogFits(rs, t);
  }

  lemma TermsBelowMap(rs: Reigns, l: Log, mapTerm: nat, p: nat)
    requires ReignsFit(rs) && MapFits(rs, l, mapTerm) && p < |l|
    ensures l[p].term <= mapTerm
  {
    assert l[p] == rs[mapTerm].log[p];
    assert ReignLogFits(rs, mapTerm);
  }

  lemma LastTermBelowMap(rs: Reigns, l: Log, mapTerm: nat, v: nat)
    requires ReignsFit(rs) && MapFits(rs, l, mapTerm) && v <= |l|
    ensures LastTerm(l[..v]) <= mapTerm
  {
    if v > 0 { TermsBelowMap(rs, l, mapTerm, v - 1); }
  }

  // Log matching: the same term at the same place means the same history up to there.
  lemma SameTermSameHistory(rs: Reigns, l: Log, m: Log, p: nat)
    requires Matches(rs, l) && Matches(rs, m) && p < |l| && p < |m| && l[p].term == m[p].term
    ensures l[..p + 1] == m[..p + 1]
  {
    assert FrameFits(rs, l, p) && FrameFits(rs, m, p);
  }

  // Comparing terms alone finds the common history with the leader, exactly.
  lemma {:induction false} AgreedIs(rs: Reigns, l: Log, t: nat, p: nat)
    requires ReignsFit(rs) && Matches(rs, l) && t in rs && p <= |l| && p <= |rs[t].log| && l[..p] == rs[t].log[..p]
    ensures var v := Agreed(l, rs[t].log, p);
            && p <= v <= |l| && v <= |rs[t].log| && l[..v] == rs[t].log[..v]
            && (v < |l| && v < |rs[t].log| ==> l[v] != rs[t].log[v])
    decreases |l| - p
  {
    var leader := rs[t].log;
    assert ReignLogFits(rs, t);
    if p < |l| && l[p].term == TermBelow(leader, p + 1) {
      assert FrameFits(rs, l, p);
      assert p < |leader|;
      SameTermSameHistory(rs, l, leader, p);
      AgreedIs(rs, l, t, p + 1);
    }
  }

  // A history both hold is never cut.
  lemma AgreedKeeps(rs: Reigns, l: Log, t: nat, c: nat)
    requires ReignsFit(rs) && Matches(rs, l) && t in rs && c <= |l| && c <= |rs[t].log| && l[..c] == rs[t].log[..c]
    ensures c <= Agreed(l, rs[t].log, 0) <= |l|
  {
    AgreedIs(rs, l, t, 0);
    var v := Agreed(l, rs[t].log, 0);
  }

  // ------------------------------------------------------------- node moves

  lemma AfterKeepsShape(s: State, t: State, i: NodeId, m: Node,
                        rq: set<Request>, gr: set<Grant>, rp: set<Report>, go: set<Gossip>)
    requires Shape(s) && i in s.nodes && t == After(s, i, m, rq, gr, rp, go)
    requires Advances(s.nodes[i], m) && NodeFits(t, i, m)
    requires (forall r | r in rq :: RequestFits(t, r)) && (forall g | g in gr :: GrantFits(t, g))
    requires (forall r | r in rp :: ReportFits(t, r)) && (forall g | g in go :: GossipFits(t, g)) && GrantsSingle(t)
    ensures Shape(t) && Moves(s, t, i, m)
  {
    assert Moves(s, t, i, m);
    assert NewsFits(s, t, i, m);
    MoveKeepsShape(s, t, i, m);
  }

  // A move that sends nothing.
  lemma QuietKeepsShape(s: State, t: State, i: NodeId, m: Node)
    requires Shape(s) && i in s.nodes && Advances(s.nodes[i], m) && NodeFits(s, i, m) && t == With(s, i, m)
    ensures Shape(t) && Moves(s, t, i, m)
  {
    assert Moves(s, t, i, m);
    NodeStays(s, t, i, m);
    assert NewsFits(s, t, i, m);
    MoveKeepsShape(s, t, i, m);
  }

  // A grant in a term above the voter's last vote is the voter's only one there.
  lemma FirstGrant(s: State, t: State, g: Grant)
    requires Shape(s) && t.grants == s.grants + {g} && g.voter in s.nodes && s.nodes[g.voter].voteTerm < g.term
    ensures GrantsSingle(t)
  {
    forall h | h in s.grants && h.term == g.term ensures h.voter != g.voter { assert GrantFits(s, h); }
  }

  lemma StandKeeps(s: State, i: NodeId)
    requires Shape(s) && Can(s, Stand(i))
    ensures var m := Standing(i, s.nodes[i]); var t := After(s, i, m, {m.bid}, {Grant(m.term, i, i)}, {}, {});
            Shape(t) && Moves(s, t, i, m)
  {
    var n := s.nodes[i];
    var m := Standing(i, n);
    var t := After(s, i, m, {m.bid}, {Grant(m.term, i, i)}, {}, {});
    assert NodeFits(s, i, n);
    StandFits(s, t, i, n, m);
    FirstGrant(s, t, Grant(m.term, i, i));
    AfterKeepsShape(s, t, i, m, {m.bid}, {Grant(m.term, i, i)}, {}, {});
  }

  lemma StandFits(s: State, t: State, i: NodeId, n: Node, m: Node)
    requires NodeFits(s, i, n) && !n.truncating && m == Standing(i, n) && t.reigns == s.reigns && m.bid in t.requests
    requires i in t.nodes && t.nodes[i] == m
    ensures NodeFits(t, i, m) && Advances(n, m) && RequestFits(t, m.bid) && GrantFits(t, Grant(m.term, i, i))
  {
    if n.mapTerm > 0 { assert s.reigns[n.mapTerm].log[..|n.log|] == n.log; }
  }

  lemma AdoptKeeps(s: State, i: NodeId, u: nat)
    requires Shape(s) && Can(s, Adopt(i, u))
    ensures var t := With(s, i, Adopting(s.nodes[i], u));
            Shape(t) && Moves(s, t, i, Adopting(s.nodes[i], u))
  {
    assert NodeFits(s, i, s.nodes[i]);
    QuietKeepsShape(s, With(s, i, Adopting(s.nodes[i], u)), i, Adopting(s.nodes[i], u));
  }

  lemma VoteFits(s: State, t: State, i: NodeId, n: Node, r: Request, m: Node)
    requires NodeFits(s, i, n) && RequestFits(s, r) && r.from != i && r.term >= n.term && r.term > n.voteTerm
    requires m == Voting(n, r) && t.reigns == s.reigns && s.requests <= t.requests && t.nodes == s.nodes[i := m]
    requires n.role == Leader ==> n.voteTerm == n.term
    ensures NodeFits(t, i, m) && Advances(n, m) && GrantFits(t, Grant(r.term, i, r.from))
  {
    assert n.role != Follower ==> r.term > n.term;
    BidStays(s, t, i, n);
  }

  lemma VoteKeeps(s: State, i: NodeId, r: Request)
    requires Shape(s) && Can(s, Vote(i, r))
    ensures var m := Voting(s.nodes[i], r); var t := After(s, i, m, {}, {Grant(r.term, i, r.from)}, {}, {});
            Shape(t) && Moves(s, t, i, m)
  {
    var n := s.nodes[i];
    var m := Voting(n, r);
    var t := After(s, i, m, {}, {Grant(r.term, i, r.from)}, {}, {});
    assert NodeFits(s, i, n) && RequestFits(s, r);
    if n.role == Leader { assert ElectionFits(s, n.term); }
    VoteFits(s, t, i, n, r, m);
    FirstGrant(s, t, Grant(r.term, i, r.from));
    AfterKeepsShape(s, t, i, m, {}, {Grant(r.term, i, r.from)}, {}, {});
  }

  lemma StepDownKeeps(s: State, i: NodeId)
    requires Shape(s) && Can(s, StepDown(i))
    ensures var t := With(s, i, SteppingDown(s.nodes[i]));
            Shape(t) && Moves(s, t, i, SteppingDown(s.nodes[i]))
  {
    assert NodeFits(s, i, s.nodes[i]);
    QuietKeepsShape(s, With(s, i, SteppingDown(s.nodes[i])), i, SteppingDown(s.nodes[i]));
  }

  lemma IntakeKeeps(s: State, i: NodeId, g: Gossip)
    requires Shape(s) && Can(s, Intake(i, g))
    ensures var m := s.nodes[i].(commit := Max(s.nodes[i].commit, Min(g.commit, s.nodes[i].validated)));
            Shape(With(s, i, m)) && Moves(s, With(s, i, m), i, m)
  {
    assert NodeFits(s, i, s.nodes[i]);
    var m := s.nodes[i].(commit := Max(s.nodes[i].commit, Min(g.commit, s.nodes[i].validated)));
    QuietKeepsShape(s, With(s, i, m), i, m);
  }

  lemma RestartKeeps(s: State, i: NodeId)
    requires Shape(s) && Can(s, Restart(i))
    ensures var t := With(s, i, Restarting(s.nodes[i]));
            Shape(t) && Moves(s, t, i, Restarting(s.nodes[i]))
  {
    var n := s.nodes[i];
    assert NodeFits(s, i, n);
    LastTermFits(s.reigns, n.log);
    LastTermBelowMap(s.reigns, n.log, n.mapTerm, |n.log|);
    assert n.log[..|n.log|] == n.log;
    var m := Restarting(n);
    if m.mapTerm > 0 { assert ReignLogFits(s.reigns, m.mapTerm); }
    QuietKeepsShape(s, With(s, i, m), i, m);
  }

  lemma FsyncKeeps(s: State, i: NodeId, k: nat)
    requires Shape(s) && Can(s, Fsync(i, k))
    ensures var m := Grown(s.nodes[i], s.reigns[s.nodes[i].term].log[..k]);
            Shape(With(s, i, m)) && Moves(s, With(s, i, m), i, m)
  {
    var n := s.nodes[i];
    assert NodeFits(s, i, n);
    assert ReignLogFits(s.reigns, n.term);
    MatchesPrefix(s.reigns, s.reigns[n.term].log, k);
    QuietKeepsShape(s, With(s, i, Grown(n, s.reigns[n.term].log[..k])), i, Grown(n, s.reigns[n.term].log[..k]));
  }

  lemma AcceptedLog(rs: Reigns, n: Node)
    requires ReignsFit(rs) && GateFits(rs, n) && n.gate && n.stream in rs && |n.log| < |rs[n.stream].log|
    ensures var leader := rs[n.stream].log; var f := leader[|n.log|]; var l := n.log + [f];
            && n.mapTerm <= f.term <= n.stream
            && l == leader[..|l|] && Matches(rs, l) && MapFits(rs, l, f.term)
            && (|l| < |leader| ==> leader[|l|].term >= f.term)
  {
    var leader := rs[n.stream].log;
    var f := leader[|n.log|];
    var l := n.log + [f];
    assert ReignLogFits(rs, n.stream);
    assert l == leader[..|l|];
    MatchesPrefix(rs, leader, |l|);
    LastTermFits(rs, l);
    if |l| < |leader| { TermsRise(rs, leader, |n.log|, |l|); }
  }

  // The fields a change of log leaves alone.
  ghost predicate SameSeat(n: Node, m: Node) {
    && m.term == n.term && m.voteTerm == n.voteTerm && m.votedFor == n.votedFor && m.role == n.role && m.bid == n.bid
    && m.stream == n.stream && m.gate == n.gate && m.truncating == n.truncating
  }

  lemma AcceptFits(s: State, i: NodeId, n: Node, m: Node)
    requires ReignsFit(s.reigns) && NodeFits(s, i, n) && n.role != Leader && SameSeat(n, m)
    requires n.gate && n.stream in s.reigns && |n.log| < |s.reigns[n.stream].log|
    requires var f := s.reigns[n.stream].log[|n.log|]; m.log == n.log + [f] && m.mapTerm == f.term
    ensures NodeFits(s, i, m) && Advances(n, m)
  {
    AcceptedLog(s.reigns, n);
    assert GateFits(s.reigns, m);
    assert n.log <= m.log;
  }

  lemma AcceptingIs(rs: Reigns, n: Node)
    requires ReignsFit(rs) && GateFits(rs, n) && n.gate && n.stream in rs && |n.log| < |rs[n.stream].log|
    ensures var f := rs[n.stream].log[|n.log|]; var m := Accepting(n, f);
            SameSeat(n, m) && m.log == n.log + [f] && m.mapTerm == f.term
  {
    AcceptedLog(rs, n);
  }

  lemma AcceptKeeps(s: State, i: NodeId)
    requires Shape(s) && Can(s, Accept(i))
    ensures var m := Accepting(s.nodes[i], s.reigns[s.nodes[i].stream].log[|s.nodes[i].log|]);
            Shape(With(s, i, m)) && Moves(s, With(s, i, m), i, m)
  {
    var n := s.nodes[i];
    assert NodeFits(s, i, n);
    var m := Accepting(n, s.reigns[n.stream].log[|n.log|]);
    AcceptingIs(s.reigns, n);
    AcceptFits(s, i, n, m);
    QuietKeepsShape(s, With(s, i, m), i, m);
  }

  lemma ReconciledLog(rs: Reigns, n: Node)
    requires ReignsFit(rs) && Matches(rs, n.log) && MapFits(rs, n.log, n.mapTerm) && n.term in rs
    requires Agreed(n.log, rs[n.term].log, 0) <= |n.log|
    ensures var leader := rs[n.term].log; var v := Agreed(n.log, leader, 0);
            var mapTerm := ReconciledTerm(n, leader, v);
            && v <= |leader| && n.log[..v] == leader[..v] && Matches(rs, n.log[..v]) && MapFits(rs, n.log[..v], mapTerm)
            && mapTerm <= n.mapTerm && (v < |leader| ==> leader[v].term >= mapTerm)
  {
    var leader := rs[n.term].log;
    AgreedIs(rs, n.log, n.term, 0);
    var v := Agreed(n.log, leader, 0);
    MatchesPrefix(rs, n.log, v);
    LastTermFits(rs, n.log[..v]);
    LastTermBelowMap(rs, n.log, n.mapTerm, v);
    assert ReignLogFits(rs, n.term);
    if 0 < v < |leader| {
      assert n.log[..v][v - 1] == leader[..v][v - 1];
      TermsRise(rs, leader, v - 1, v);
    }
    if v == |n.log| { assert n.log[..v] == n.log; }
  }

  // Where term comparison stops, the log has neither the leader's frame nor any of the leader's term.
  lemma CutParts(rs: Reigns, l: Log, t: nat)
    requires ReignsFit(rs) && Matches(rs, l) && t in rs && Agreed(l, rs[t].log, 0) < |l|
    ensures var v := Agreed(l, rs[t].log, 0);
            l[v].term != t && (v < |rs[t].log| ==> l[v].term != rs[t].log[v].term)
  {
    var v := Agreed(l, rs[t].log, 0);
    AgreedIs(rs, l, t, 0);
    AgreedStops(l, rs[t].log, 0);
    assert FrameFits(rs, l, v) && ReignLogFits(rs, t);
  }

  lemma {:induction false} AgreedStops(l: Log, leader: Log, p: nat)
    requires p <= |l| && p <= Agreed(l, leader, p) < |l|
    ensures var v := Agreed(l, leader, p); l[v].term != TermBelow(leader, v + 1)
    decreases |l| - p
  {
    if l[p].term == TermBelow(leader, p + 1) {
      AgreedIsBounded(l, leader, p + 1);
      AgreedStops(l, leader, p + 1);
    }
  }

  lemma ReconcileFits(s: State, i: NodeId, n: Node)
    requires ReignsFit(s.reigns) && NodeFits(s, i, n) && n.role != Leader && n.term in s.reigns && !n.truncating
    ensures var m := Reconciling(n, s.reigns[n.term].log); NodeFits(s, i, m) && Advances(n, m)
  {
    AgreedIsBounded(n.log, s.reigns[n.term].log, 0);
    ReconciledLog(s.reigns, n);
    if Agreed(n.log, s.reigns[n.term].log, 0) == |n.log| {
      assert n.log[..|n.log|] == n.log;
    } else {
      CutParts(s.reigns, n.log, n.term);
    }
  }

  lemma SettledLog(rs: Reigns, n: Node)
    requires ReignsFit(rs) && Matches(rs, n.log) && CutFits(rs, n) && n.truncating
    ensures var l := n.log[..n.validated]; var leader := rs[n.vouched].log;
            && Settling(n).log == l <= leader && Matches(rs, l)
            && MapFits(rs, l, LastTerm(l)) && LastTerm(l) <= n.vouched
            && (|l| < |leader| ==> leader[|l|].term >= LastTerm(l))
  {
    var l, leader := n.log[..n.validated], rs[n.vouched].log;
    MatchesPrefix(rs, n.log, n.validated);
    LastTermFits(rs, l);
    assert ReignLogFits(rs, n.vouched);
    if 0 < |l| {
      assert l[|l| - 1] == leader[..n.validated][|l| - 1] == leader[|l| - 1];
      TermsRise(rs, leader, |l| - 1, |leader| - 1);
      if |l| < |leader| { TermsRise(rs, leader, |l| - 1, |l|); }
    }
  }

  lemma TruncatedKeeps(s: State, i: NodeId)
    requires Shape(s) && Can(s, Truncated(i))
    ensures var m := Settling(s.nodes[i]); Shape(With(s, i, m)) && Moves(s, With(s, i, m), i, m)
  {
    var n := s.nodes[i];
    assert NodeFits(s, i, n);
    SettledLog(s.reigns, n);
    QuietKeepsShape(s, With(s, i, Settling(n)), i, Settling(n));
  }

  lemma ReconcileKeeps(s: State, i: NodeId)
    requires Shape(s) && Can(s, Reconcile(i))
    ensures var m := Reconciling(s.nodes[i], s.reigns[s.nodes[i].term].log);
            Shape(With(s, i, m)) && Moves(s, With(s, i, m), i, m)
  {
    var n := s.nodes[i];
    assert NodeFits(s, i, n);
    ReconcileFits(s, i, n);
    QuietKeepsShape(s, With(s, i, Reconciling(n, s.reigns[n.term].log)), i, Reconciling(n, s.reigns[n.term].log));
  }

  lemma SendKeeps(s: State, i: NodeId, length: nat)
    requires Shape(s) && Can(s, Send(i, length))
    ensures var n := s.nodes[i];
            var t := After(s, i, n, {}, {}, {Report(n.stream, i, length, TermBelow(n.log, length))}, {});
            Shape(t) && Moves(s, t, i, n)
  {
    var n := s.nodes[i];
    var r := Report(n.stream, i, length, TermBelow(n.log, length));
    var t := After(s, i, n, {}, {}, {r}, {});
    assert NodeFits(s, i, n);
    NodeStays(s, t, i, n);
    SentFits(t, i, n, length);
    AfterKeepsShape(s, t, i, n, {}, {}, {r}, {});
  }

  lemma SentFits(t: State, i: NodeId, n: Node, length: nat)
    requires Matches(t.reigns, n.log) && length <= |n.log|
    ensures ReportFits(t, Report(n.stream, i, length, TermBelow(n.log, length)))
  {
    if length > 0 { assert FrameFits(t.reigns, n.log, length - 1); }
  }

  lemma CommitKeeps(s: State, i: NodeId, c: nat, holders: set<NodeId>)
    requires Shape(s) && Can(s, Commit(i, c, holders))
    ensures var n := s.nodes[i];
            var r, g := Report(n.term, i, |n.log|, n.term), Gossip(n.term, c, holders);
            var t := After(s, i, n.(commit := c), {}, {}, {r}, {g});
            Shape(t) && Moves(s, t, i, n.(commit := c))
  {
    var n := s.nodes[i];
    var m, r, g := n.(commit := c), Report(n.term, i, |n.log|, n.term), Gossip(n.term, c, holders);
    var t := After(s, i, m, {}, {}, {r}, {g});
    assert NodeFits(s, i, n) && ReignLogFits(s.reigns, n.term);
    CommitOnly(s, t, i, n, c);
    CommitIsHeld(s, t, i, c, holders);
    AfterKeepsShape(s, t, i, m, {}, {}, {r}, {g});
  }

  lemma CommitIsHeld(s: State, t: State, i: NodeId, c: nat, holders: set<NodeId>)
    requires Shape(s) && Can(s, Commit(i, c, holders)) && t.reigns == s.reigns && t.nodes.Keys == s.nodes.Keys
    requires s.reports <= t.reports && Report(s.nodes[i].term, i, |s.nodes[i].log|, s.nodes[i].term) in t.reports
    ensures GossipFits(t, Gossip(s.nodes[i].term, c, holders))
    ensures ReportFits(t, Report(s.nodes[i].term, i, |s.nodes[i].log|, s.nodes[i].term))
  {
    var n := s.nodes[i];
    assert NodeFits(s, i, n) && ReignLogFits(s.reigns, n.term);
    forall j | j in holders ensures Acked(t, n.term, j, c) { HolderAcked(s, t, i, c, j); }
  }

  lemma CommitOnly(s: State, t: State, i: NodeId, n: Node, c: nat)
    requires NodeFits(s, i, n) && t.reigns == s.reigns && s.requests <= t.requests
    ensures NodeFits(t, i, n.(commit := c)) && Advances(n, n.(commit := c))
  {
    NodeStays(s, t, i, n);
  }

  // Whoever counts for a position above the leader's base has acknowledged it in the leader's own term.
  lemma HolderAcked(s: State, t: State, i: NodeId, c: nat, j: NodeId)
    requires i in s.nodes && var n := s.nodes[i];
             && n.term in s.reigns && ReignLogFits(s.reigns, n.term) && s.reigns[n.term].base < c <= |n.log|
             && Counts(s, i, s.reigns[n.term].log, n.term, c, j)
             && s.reports <= t.reports && Report(n.term, i, |n.log|, n.term) in t.reports
    ensures Acked(t, s.nodes[i].term, j, c)
  {
    var n := s.nodes[i];
    var leader := s.reigns[n.term].log;
    if j != i {
      var r :| && r in s.reports && r.term == n.term && r.node == j
               && r.length >= c && r.lastTerm == TermBelow(leader, r.length);
      assert r in t.reports && r.lastTerm == n.term;
    }
  }

  // ------------------------------------------------------------- moves that change a reign

  lemma AppendKeeps(s: State, i: NodeId, payload: int)
    requires Shape(s) && Can(s, Append(i, payload))
    ensures var u := s.nodes[i].term; var reign := s.reigns[u];
            var t := WithReign(s, u, reign.(log := reign.log + [Frame(u, payload)]));
            Shape(t) && Moves(s, t, i, s.nodes[i])
  {
    var n := s.nodes[i];
    var reign := s.reigns[n.term];
    var t := WithReign(s, n.term, reign.(log := reign.log + [Frame(n.term, payload)]));
    assert NodeFits(s, i, n) && ReignLogFits(s.reigns, n.term) && ElectionFits(s, n.term);
    ExtendedReign(s.reigns, t.reigns, n.term, Frame(n.term, payload));
    StillMoves(s, t, i, n);
    NodeStays(s, t, i, n);
    ElectionStays(s, t, i, n, n.term);
    ReignMoveKeepsShape(s, t, i, n, n.term);
  }

  lemma StillMoves(s: State, t: State, i: NodeId, n: Node)
    requires i in s.nodes && s.nodes[i] == n && t.nodes == s.nodes && ReignsGrow(s.reigns, t.reigns)
    requires t.requests == s.requests && t.grants == s.grants && t.reports == s.reports && t.gossip == s.gossip
    ensures Moves(s, t, i, n)
  {
    assert s.nodes == s.nodes[i := n];
  }

  lemma ReignMoveKeepsShape(s: State, t: State, i: NodeId, m: Node, u: nat)
    requires Shape(s) && Moves(s, t, i, m) && NodeFits(t, i, m) && u != 0 && u in t.reigns
    requires t.requests == s.requests && t.grants == s.grants && t.reports == s.reports && t.gossip == s.gossip
    requires t.reigns == s.reigns[u := t.reigns[u]] && ReignLogFits(t.reigns, u) && ElectionFits(t, u)
    ensures Shape(t)
  {
    assert NewsFits(s, t, i, m);
    MoveKeepsShape(s, t, i, m);
  }

  lemma ExtendedReign(a: Reigns, b: Reigns, u: nat, f: Frame)
    requires u in a && ReignLogFits(a, u) && f.term == u
    requires b == a[u := a[u].(log := a[u].log + [f])]
    ensures ReignsGrow(a, b) && ReignLogFits(b, u)
  {
    var old_, l := a[u].log, b[u].log;
    MatchesLater(a, b, old_);
    forall p: nat | p < |l| ensures FrameFits(b, l, p) {
      if p < |old_| {
        assert FrameFits(b, old_, p);
        assert l[..p + 1] == old_[..p + 1];
      }
    }
  }

  // ------------------------------------------------------------- election safety

  // A quorum of grants in a term that has a leader names that leader, who no longer stands for it.
  lemma QuorumNamesLeader(s: State, t: nat, i: NodeId, voters: set<NodeId>)
    requires Shape(s) && t in s.reigns && IsMajority(voters, s.nodes.Keys)
    requires forall j | j in voters :: Grant(t, j, i) in s.grants
    ensures s.reigns[t].leader == i && i in s.nodes && !(s.nodes[i].role == Candidate && s.nodes[i].term == t)
  {
    assert ElectionFits(s, t);
    MajoritiesMeet(s.nodes.Keys, s.nodes.Keys, 0, voters, s.reigns[t].voters);
    var j :| j in voters * s.reigns[t].voters;
    GrantsAgree(s, Grant(t, j, i), Grant(t, j, s.reigns[t].leader));
  }

  // A term is won at most once.
  lemma WinIsFirst(s: State, i: NodeId, voters: set<NodeId>)
    requires Shape(s) && Can(s, Win(i, voters))
    ensures s.nodes[i].term !in s.reigns
  {
    var t := s.nodes[i].term;
    if t in s.reigns {
      QuorumNamesLeader(s, t, i, voters);
    }
  }

  lemma GrantsAgree(s: State, a: Grant, b: Grant)
    requires Shape(s) && a in s.grants && b in s.grants && a.term == b.term && a.voter == b.voter
    ensures a.candidate == b.candidate
  {
  }

  lemma WonReign(a: Reigns, b: Reigns, l: Log, mapTerm: nat, u: nat, reign: Reign)
    requires ReignsFit(a) && Matches(a, l) && MapFits(a, l, mapTerm) && mapTerm <= u && u !in a
    requires b == a[u := reign] && reign.base == |l| && reign.log == l + [Frame(u, NEW_TERM)]
    ensures ReignsGrow(a, b) && ReignLogFits(b, u) && Matches(b, l)
  {
    MatchesLater(a, b, l);
    var log := reign.log;
    forall p: nat | p < |log| ensures FrameFits(b, log, p) && (p < |l| ==> log[p].term < u) {
      if p < |l| {
        assert FrameFits(b, l, p) && FrameFits(a, l, p);
        assert log[..p + 1] == l[..p + 1];
        TermsBelowMap(a, l, mapTerm, p);
      }
    }
  }

  lemma WinKeeps(s: State, i: NodeId, voters: set<NodeId>)
    requires Shape(s) && Can(s, Win(i, voters))
    ensures var t := Do(s, Win(i, voters)); Shape(t) && Moves(s, t, i, Leading(s.nodes[i]))
  {
    var n := s.nodes[i];
    var m := Leading(n);
    var t := Do(s, Win(i, voters));
    WinIsFirst(s, i, voters);
    assert NodeFits(s, i, n) && RequestFits(s, n.bid);
    WonReign(s.reigns, t.reigns, n.log, n.mapTerm, n.term, t.reigns[n.term]);
    assert t.nodes.Keys == s.nodes.Keys;
    assert NodeFits(t, i, m);
    ReignMoveKeepsShape(s, t, i, m, n.term);
  }

  // ------------------------------------------------------------- every step

  // The node a step changes, as the step leaves it.
  function Mover(s: State, step: Step): Node
    requires Can(s, step)
  {
    if step.Append? || step.Send? then s.nodes[step.i] else Do(s, step).nodes[step.i]
  }

  // MAIN RESULT.  Every step keeps the shape: among it that a term has one leader, elected by a quorum, and
  // that every log matches the histories of the leaders whose terms it carries.
  lemma StepKeepsShape(s: State, step: Step)
    requires Shape(s) && Can(s, step)
    ensures Shape(Do(s, step)) && Moves(s, Do(s, step), step.i, Mover(s, step))
  {
    if ElectionStep(step) { ElectionStepKeepsShape(s, step); } else { LogStepKeepsShape(s, step); }
  }

  predicate ElectionStep(step: Step) {
    step.Stand? || step.Adopt? || step.Vote? || step.Win? || step.StepDown? || step.Restart?
  }

  lemma ElectionStepKeepsShape(s: State, step: Step)
    requires Shape(s) && Can(s, step) && ElectionStep(step)
    ensures Shape(Do(s, step)) && Moves(s, Do(s, step), step.i, Mover(s, step))
  {
    match step {
      case Stand(i) => StandKeeps(s, i);
      case Adopt(i, u) => AdoptKeeps(s, i, u);
      case Vote(i, r) => VoteKeeps(s, i, r);
      case Win(i, voters) => WinKeeps(s, i, voters);
      case StepDown(i) => StepDownKeeps(s, i);
      case Restart(i) => RestartKeeps(s, i);
    }
  }

  lemma LogStepKeepsShape(s: State, step: Step)
    requires Shape(s) && Can(s, step) && !ElectionStep(step)
    ensures Shape(Do(s, step)) && Moves(s, Do(s, step), step.i, Mover(s, step))
  {
    match step {
      case Append(i, payload) => AppendKeeps(s, i, payload);
      case Fsync(i, k) => FsyncKeeps(s, i, k);
      case Accept(i) => AcceptKeeps(s, i);
      case Reconcile(i) => ReconcileKeeps(s, i);
      case Truncated(i) => TruncatedKeeps(s, i);
      case Send(i, length) => SendKeeps(s, i, length);
      case Commit(i, c, holders) => CommitKeeps(s, i, c, holders);
      case Intake(i, g) => IntakeKeeps(s, i, g);
    }
  }
}
