/**
Leader completeness and what follows from it, over every run of the protocol.
 */
module ProtocolSafety {
  import opened ClusterConfig
  import opened Protocol
  import opened ProtocolShape
  import opened ProtocolSteps

  // ------------------------------------------------------------- what may still be committed

  // The node has not given up acknowledging frames of term t: it has not voted above t, or it stands
  // for election while still streaming t or below.
  ghost predicate CanStillAck(n: Node, t: nat) {
    n.voteTerm <= t || (n.role == Candidate && n.stream <= t)
  }

  ghost predicate MayAck(s: State, t: nat, i: NodeId, c: nat) {
    Acked(s, t, i, c) || (i in s.nodes && CanStillAck(s.nodes[i], t))
  }

  ghost predicate QuorumMay(s: State, t: nat, c: nat, q: set<NodeId>) {
    IsMajority(q, s.nodes.Keys) && forall i | i in q :: MayAck(s, t, i, c)
  }

  // Some quorum has acknowledged, or may still acknowledge, the first c frames of term t's history.
  ghost predicate Choosable(s: State, t: nat, c: nat) {
    && t in s.reigns && s.reigns[t].base < c <= |s.reigns[t].log|
    && exists q :: QuorumMay(s, t, c, q)
  }

  ghost predicate SameHistory(a: Log, b: Log, c: nat) {
    c <= |a| && c <= |b| && a[..c] == b[..c]
  }

  // ------------------------------------------------------------- the invariant

  // A later leader has everything that may still be committed in an earlier term.
  ghost predicate CompleteAt(s: State, t: nat, u: nat, c: nat) {
    Choosable(s, t, c) && u in s.reigns && t < u ==> SameHistory(s.reigns[t].log, s.reigns[u].log, c)
  }

  // A node that acknowledged it still has it.
  ghost predicate HoldAt(s: State, t: nat, i: NodeId, c: nat) {
    Choosable(s, t, c) && i in s.nodes && Acked(s, t, i, c) ==> SameHistory(s.reigns[t].log, s.nodes[i].log, c)
  }

  // A candidate that got the vote of a node that acknowledged it stood with a log that has it.
  ghost predicate BackAt(s: State, g: Grant, r: Request, t: nat, c: nat) {
    && g in s.grants && r in s.requests && r.term == g.term && r.from == g.candidate && g.voter != g.candidate
    && t < g.term && Choosable(s, t, c) && Acked(s, t, g.voter, c)
    ==> r.lastTerm in s.reigns && c <= r.length && SameHistory(s.reigns[t].log, s.reigns[r.lastTerm].log, c)
  }

  ghost predicate RequestsSingle(s: State) {
    forall a, b | a in s.requests && b in s.requests && a.term == b.term && a.from == b.from :: a == b
  }

  ghost predicate Safe(s: State) {
    && Shape(s) && RequestsSingle(s)
    && (forall t: nat, u: nat, c: nat :: CompleteAt(s, t, u, c))
    && (forall t: nat, i: NodeId, c: nat :: HoldAt(s, t, i, c))
    && (forall g: Grant, r: Request, t: nat, c: nat :: BackAt(s, g, r, t, c))
  }

  // ------------------------------------------------------------- choices only narrow

  lemma AckedBounded(s: State, t: nat, i: NodeId, c: nat)
    requires Shape(s) && Acked(s, t, i, c) && c >= 1
    ensures t in s.reigns && c <= |s.reigns[t].log|
  {
    var r :| r in s.reports && r.term == t && r.node == i && r.lastTerm == t && r.length >= c;
    assert ReportFits(s, r);
  }

  // An acknowledgment is old, or the step's node makes it while streaming t and holding the history.
  lemma AckOrigin(s: State, step: Step, t: nat, i: NodeId, c: nat)
    requires Shape(s) && Can(s, step) && c >= 1 && Acked(Do(s, step), t, i, c)
    ensures Acked(s, t, i, c) ||
            (i == step.i && s.nodes[i].stream == t && t in s.reigns && SameHistory(s.reigns[t].log, s.nodes[i].log, c))
  {
    var s' := Do(s, step);
    var r :| r in s'.reports && r.term == t && r.node == i && r.lastTerm == t && r.length >= c;
    if r !in s.reports {
      assert NodeFits(s, step.i, s.nodes[step.i]);
      NewReport(s, step, r);
      ReportedHistory(s.reigns, s.nodes[i].log, t, r.length, c);
    }
  }

  lemma NewReport(s: State, step: Step, r: Report)
    requires Can(s, step) && r in Do(s, step).reports && r !in s.reports
    requires TermsFit(s, step.i, s.nodes[step.i]) && MapFits(s.reigns, s.nodes[step.i].log, s.nodes[step.i].mapTerm)
    ensures var n := s.nodes[step.i]; r.node == step.i && r.term == n.stream && r.length <= |n.log|
    ensures var n := s.nodes[step.i];
            r.lastTerm == TermBelow(n.log, r.length) || (r.term in s.reigns && n.log <= s.reigns[r.term].log)
  {
    assert step.Send? || step.Commit?;
  }

  lemma ReportedHistory(rs: Reigns, l: Log, t: nat, length: nat, c: nat)
    requires Matches(rs, l) && 1 <= c <= length <= |l|
    requires TermBelow(l, length) == t || (t in rs && l <= rs[t].log)
    ensures t in rs && SameHistory(rs[t].log, l, c)
  {
    if TermBelow(l, length) == t {
      assert FrameFits(rs, l, length - 1);
      assert l[..length][..c] == l[..c];
      assert rs[t].log[..length][..c] == rs[t].log[..c];
    }
  }

  lemma StreamerCanAck(s: State, i: NodeId)
    requires Shape(s) && i in s.nodes
    ensures CanStillAck(s.nodes[i], s.nodes[i].stream)
  {
    assert NodeFits(s, i, s.nodes[i]);
  }

  lemma CanStillAckBefore(s: State, i: NodeId, m: Node, t: nat)
    requires Shape(s) && i in s.nodes && Advances(s.nodes[i], m) && CanStillAck(m, t)
    ensures CanStillAck(s.nodes[i], t)
  {
    assert NodeFits(s, i, s.nodes[i]);
  }

  lemma MayAckBefore(s: State, step: Step, t: nat, i: NodeId, c: nat)
    requires Shape(s) && Can(s, step) && c >= 1 && MayAck(Do(s, step), t, i, c)
    ensures MayAck(s, t, i, c)
  {
    var s' := Do(s, step);
    if Acked(s', t, i, c) {
      AckOrigin(s, step, t, i, c);
      StreamerCanAck(s, step.i);
    } else {
      StepKeepsShape(s, step);
      if i == step.i { CanStillAckBefore(s, i, Mover(s, step), t); }
    }
  }

  lemma ChoosableBefore(s: State, step: Step, t: nat, c: nat)
    requires Shape(s) && Can(s, step) && Choosable(Do(s, step), t, c)
    requires t in s.reigns && c <= |s.reigns[t].log|
    ensures Choosable(s, t, c)
  {
    var s' := Do(s, step);
    StepKeepsShape(s, step);
    assert ReignGrows(s.reigns[t], s'.reigns[t], t);
    var q :| QuorumMay(s', t, c, q);
    QuorumMayBefore(s, step, t, c, q);
  }

  lemma QuorumMayBefore(s: State, step: Step, t: nat, c: nat, q: set<NodeId>)
    requires Shape(s) && Can(s, step) && c >= 1 && QuorumMay(Do(s, step), t, c, q)
    ensures QuorumMay(s, t, c, q)
  {
    forall i | i in q ensures MayAck(s, t, i, c) { MayAckBefore(s, step, t, i, c); }
    assert Do(s, step).nodes.Keys == s.nodes.Keys;
  }

  // What an earlier term may still commit has been acknowledged by one of a later leader's voters.
  lemma VoterAcked(s: State, t: nat, u: nat, c: nat) returns (j: NodeId)
    requires Shape(s) && Choosable(s, t, c) && u in s.reigns && t < u
    ensures j in s.reigns[u].voters && Acked(s, t, j, c)
  {
    var q :| QuorumMay(s, t, c, q);
    assert ElectionFits(s, u);
    MajoritiesMeet(s.nodes.Keys, s.nodes.Keys, 0, q, s.reigns[u].voters);
    j :| j in q * s.reigns[u].voters;
    assert MayAck(s, t, j, c);
    assert GrantFits(s, Grant(u, j, s.reigns[u].leader));
  }

  // ------------------------------------------------------------- leader completeness, step by step

  lemma SameHistoryLater(a: Log, b: Log, a': Log, b': Log, c: nat)
    requires SameHistory(a, b, c) && a <= a' && b <= b'
    ensures SameHistory(a', b', c)
  {
    assert a'[..c] == a[..c] && b'[..c] == b[..c];
  }

  // A term that is new, or frames that are new, nobody has acknowledged: no later leader is concerned.
  lemma CompleteUnacked(s: State, step: Step, t: nat, u: nat, c: nat)
    requires Shape(s) && Can(s, step) && (t in s.reigns ==> c > |s.reigns[t].log|)
    ensures CompleteAt(Do(s, step), t, u, c)
  {
    var s' := Do(s, step);
    StepKeepsShape(s, step);
    if Choosable(s', t, c) && u in s'.reigns && t < u {
      var j := VoterAcked(s', t, u, c);
      AckOrigin(s, step, t, j, c);
      if Acked(s, t, j, c) { AckedBounded(s, t, j, c); }
    }
  }

  lemma CompleteOld(s: State, step: Step, t: nat, u: nat, c: nat)
    requires Safe(s) && Can(s, step) && t in s.reigns && c <= |s.reigns[t].log| && u in s.reigns
    ensures CompleteAt(Do(s, step), t, u, c)
  {
    var s' := Do(s, step);
    StepKeepsShape(s, step);
    if Choosable(s', t, c) && t < u {
      ChoosableBefore(s, step, t, c);
      assert CompleteAt(s, t, u, c);
      assert ReignGrows(s.reigns[t], s'.reigns[t], t) && ReignGrows(s.reigns[u], s'.reigns[u], u);
      SameHistoryLater(s.reigns[t].log, s.reigns[u].log, s'.reigns[t].log, s'.reigns[u].log, c);
    }
  }

  // The heart: a winner has what any earlier term may still commit, through a voter that acknowledged it.
  lemma CompleteWin(s: State, step: Step, t: nat, u: nat, c: nat)
    requires Safe(s) && Can(s, step) && t in s.reigns && c <= |s.reigns[t].log|
    requires u !in s.reigns && u in Do(s, step).reigns
    ensures CompleteAt(Do(s, step), t, u, c)
  {
    var s' := Do(s, step);
    StepKeepsShape(s, step);
    assert step.Win? && u == s.nodes[step.i].term && s'.reports == s.reports;
    if Choosable(s', t, c) && t < u {
      ChoosableBefore(s, step, t, c);
      var j := VoterAcked(s', t, u, c);
      assert Acked(s, t, j, c) && Grant(u, j, step.i) in s.grants;
      WinnerHolds(s, step.i, j, t, c);
      SameHistoryLater(s.reigns[t].log, s.nodes[step.i].log, s'.reigns[t].log, s'.reigns[u].log, c);
    }
  }

  lemma WinnerHolds(s: State, k: NodeId, j: NodeId, t: nat, c: nat)
    requires Safe(s) && k in s.nodes && s.nodes[k].role == Candidate && s.nodes[k].term !in s.reigns
    requires Grant(s.nodes[k].term, j, k) in s.grants && t < s.nodes[k].term && Choosable(s, t, c) && Acked(s, t, j, c)
    ensures SameHistory(s.reigns[t].log, s.nodes[k].log, c)
  {
    var n := s.nodes[k];
    if j == k {
      assert HoldAt(s, t, k, c);
    } else {
      assert NodeFits(s, k, n);
      assert BackAt(s, Grant(n.term, j, k), n.bid, t, c);
      PrefixHistory(s.reigns[t].log, s.reigns[n.bid.lastTerm].log, n.log, n.bid.length, c);
    }
  }

  lemma PrefixHistory(a: Log, b: Log, l: Log, length: nat, c: nat)
    requires SameHistory(a, b, c) && c <= length <= |b| && b[..length] <= l
    ensures SameHistory(a, l, c)
  {
    assert l[..c] == l[..length][..c] == b[..length][..c] == b[..c];
  }

  lemma StepKeepsComplete(s: State, step: Step, t: nat, u: nat, c: nat)
    requires Safe(s) && Can(s, step)
    ensures CompleteAt(Do(s, step), t, u, c)
  {
    if t !in s.reigns || c > |s.reigns[t].log| {
      CompleteUnacked(s, step, t, u, c);
    } else if u in s.reigns {
      CompleteOld(s, step, t, u, c);
    } else if u in Do(s, step).reigns {
      CompleteWin(s, step, t, u, c);
    }
  }
}
