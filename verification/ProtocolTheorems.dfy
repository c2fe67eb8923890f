/**
The invariant is kept by every step, and what every run of the protocol therefore has.
 */
module ProtocolTheorems {
  import opened ClusterConfig
  import opened Protocol
  import opened ProtocolShape
  import opened ProtocolSteps
  import opened ProtocolSafety

  // ------------------------------------------------------------- acknowledged history is kept

  // A node that has a frame of term t at c has reached term t.
  lemma HoldsTerm(s: State, t: nat, i: NodeId, c: nat)
    requires Shape(s) && Choosable(s, t, c) && i in s.nodes && SameHistory(s.reigns[t].log, s.nodes[i].log, c)
    ensures t <= s.nodes[i].mapTerm <= s.nodes[i].term
  {
    var n := s.nodes[i];
    assert NodeFits(s, i, n) && ReignLogFits(s.reigns, t);
    assert n.log[c - 1] == n.log[..c][c - 1] == s.reigns[t].log[..c][c - 1] == s.reigns[t].log[c - 1];
    TermsBelowMap(s.reigns, n.log, n.mapTerm, c - 1);
  }

  lemma SharedFrame(a: Log, b: Log, c: nat, p: nat)
    requires SameHistory(a, b, c) && p < c
    ensures a[p] == b[p]
  {
    assert a[p] == a[..c][p] == b[..c][p];
  }

  // A cut in flight lies above every history shared with the leader that decided it.
  lemma CutKeeps(rs: Reigns, n: Node, c: nat)
    requires CutFits(rs, n) && n.truncating && SameHistory(rs[n.vouched].log, n.log, c)
    ensures c <= n.validated && SameHistory(rs[n.vouched].log, Settling(n).log, c)
  {
    var v, leader := n.validated, rs[n.vouched].log;
    if v < c { SharedFrame(leader, n.log, c, v); }
    assert n.log[..v][..c] == n.log[..c];
  }

  // A cut, whenever it is acknowledged, spares everything that may still be committed.
  lemma TruncatedHolds(s: State, i: NodeId, t: nat, c: nat)
    requires Safe(s) && Can(s, Truncated(i)) && Choosable(s, t, c) && SameHistory(s.reigns[t].log, s.nodes[i].log, c)
    ensures SameHistory(s.reigns[t].log, Settling(s.nodes[i]).log, c)
    ensures var s' := Do(s, Truncated(i)); SameHistory(s'.reigns[t].log, s'.nodes[i].log, c)
  {
    var n := s.nodes[i];
    HoldsTerm(s, t, i, c);
    assert NodeFits(s, i, n);
    assert CompleteAt(s, t, n.vouched, c);
    CutKeeps(s.reigns, n, c);
  }

  // Only an acknowledged cut shortens a log.
  lemma LogsGrow(s: State, step: Step, i: NodeId)
    requires Shape(s) && Can(s, step) && i in s.nodes && step != Truncated(i)
    ensures i in Do(s, step).nodes && s.nodes[i].log <= Do(s, step).nodes[i].log
  {
    if step.Fsync? && i == step.i {
      var n := s.nodes[i];
      assert NodeFits(s, i, n);
      assert n.log <= s.reigns[n.term].log[..step.n];
    }
  }

  lemma HoldOld(s: State, step: Step, t: nat, i: NodeId, c: nat)
    requires Safe(s) && Can(s, step) && Choosable(s, t, c) && i in s.nodes
    requires SameHistory(s.reigns[t].log, s.nodes[i].log, c) && ReignsGrow(s.reigns, Do(s, step).reigns)
    ensures i in Do(s, step).nodes && t in Do(s, step).reigns
    ensures SameHistory(Do(s, step).reigns[t].log, Do(s, step).nodes[i].log, c)
  {
    if step == Truncated(i) {
      TruncatedHolds(s, i, t, c);
    } else {
      LogsGrow(s, step, i);
      HoldLater(s, Do(s, step), t, i, c);
    }
  }

  lemma HoldLater(s: State, s': State, t: nat, i: NodeId, c: nat)
    requires i in s.nodes && i in s'.nodes && s.nodes[i].log <= s'.nodes[i].log && ReignsGrow(s.reigns, s'.reigns)
    requires t in s.reigns && SameHistory(s.reigns[t].log, s.nodes[i].log, c)
    ensures t in s'.reigns && SameHistory(s'.reigns[t].log, s'.nodes[i].log, c)
  {
    assert ReignGrows(s.reigns[t], s'.reigns[t], t);
    SameHistoryLater(s.reigns[t].log, s.nodes[i].log, s'.reigns[t].log, s'.nodes[i].log, c);
  }

  // What a node acknowledged it held when the step was taken.
  lemma AckedHeld(s: State, step: Step, t: nat, i: NodeId, c: nat)
    requires Safe(s) && Can(s, step) && Choosable(Do(s, step), t, c) && i in s.nodes && Acked(Do(s, step), t, i, c)
    ensures Choosable(s, t, c) && SameHistory(s.reigns[t].log, s.nodes[i].log, c)
  {
    AckOrigin(s, step, t, i, c);
    if Acked(s, t, i, c) { AckedBounded(s, t, i, c); }
    ChoosableBefore(s, step, t, c);
    assert HoldAt(s, t, i, c);
  }

  lemma StepKeepsHold(s: State, step: Step, t: nat, i: NodeId, c: nat)
    requires Safe(s) && Can(s, step)
    ensures HoldAt(Do(s, step), t, i, c)
  {
    var s' := Do(s, step);
    if Choosable(s', t, c) && i in s'.nodes && Acked(s', t, i, c) {
      StepKeepsShape(s, step);
      AckedHeld(s, step, t, i, c);
      HoldOld(s, step, t, i, c);
    }
  }

  // ------------------------------------------------------------- votes carry it

  // A voter that holds it votes only for a log that has it.
  lemma FreshHolds(s: State, i: NodeId, r: Request, t: nat, c: nat)
    requires Safe(s) && i in s.nodes && r in s.requests && Fresh(r, s.nodes[i])
    requires Choosable(s, t, c) && SameHistory(s.reigns[t].log, s.nodes[i].log, c)
    ensures r.lastTerm in s.reigns && c <= r.length && SameHistory(s.reigns[t].log, s.reigns[r.lastTerm].log, c)
  {
    HoldsTerm(s, t, i, c);
    assert RequestFits(s, r);
    var u := r.lastTerm;
    if t < u {
      assert CompleteAt(s, t, u, c);
      BelowBase(s.reigns, t, u, c);
    }
  }

  // Frames of an older term lie below a later leader's base.
  lemma BelowBase(rs: Reigns, t: nat, u: nat, c: nat)
    requires t in rs && u in rs && t < u && ReignLogFits(rs, t) && ReignLogFits(rs, u)
    requires rs[t].base < c && SameHistory(rs[t].log, rs[u].log, c)
    ensures c <= rs[u].base
  {
    assert rs[u].log[c - 1] == rs[u].log[..c][c - 1] == rs[t].log[..c][c - 1] == rs[t].log[c - 1];
  }

  lemma BackedLater(s: State, s': State, r: Request, t: nat, c: nat)
    requires ReignsGrow(s.reigns, s'.reigns) && t in s.reigns && r.lastTerm in s.reigns
    requires SameHistory(s.reigns[t].log, s.reigns[r.lastTerm].log, c)
    ensures t in s'.reigns && r.lastTerm in s'.reigns && SameHistory(s'.reigns[t].log, s'.reigns[r.lastTerm].log, c)
  {
    assert ReignGrows(s.reigns[t], s'.reigns[t], t);
    assert ReignGrows(s.reigns[r.lastTerm], s'.reigns[r.lastTerm], r.lastTerm);
    SameHistoryLater(s.reigns[t].log, s.reigns[r.lastTerm].log, s'.reigns[t].log, s'.reigns[r.lastTerm].log, c);
  }

  // A vote and the request it answers: both old, or the vote is the step.
  lemma GrantOrigin(s: State, step: Step, g: Grant, r: Request)
    requires Shape(s) && RequestsSingle(s) && Can(s, step) && g in Do(s, step).grants && r in Do(s, step).requests
    requires r.term == g.term && r.from == g.candidate && g.voter != g.candidate
    ensures r in s.requests && (g in s.grants || (step == Vote(g.voter, r)))
  {
    if step.Stand? {
      assert NodeFits(s, step.i, s.nodes[step.i]);
      assert g in s.grants && GrantFits(s, g);
    } else if g !in s.grants {
      assert step.Vote? && r == step.r;
    }
  }

  // A voter has left the terms below its vote, so it acknowledged before it voted.
  lemma VoterAckIsOld(s: State, step: Step, g: Grant, t: nat, c: nat)
    requires Shape(s) && Can(s, step) && g in s.grants && g.voter != g.candidate && t < g.term && c >= 1
    requires Acked(Do(s, step), t, g.voter, c)
    ensures Acked(s, t, g.voter, c)
  {
    assert GrantFits(s, g);
    AckOrigin(s, step, t, g.voter, c);
  }

  lemma StepKeepsBack(s: State, step: Step, g: Grant, r: Request, t: nat, c: nat)
    requires Safe(s) && Can(s, step)
    ensures BackAt(Do(s, step), g, r, t, c)
  {
    var s' := Do(s, step);
    if && g in s'.grants && r in s'.requests && r.term == g.term && r.from == g.candidate && g.voter != g.candidate
       && t < g.term && Choosable(s', t, c) && Acked(s', t, g.voter, c) {
      StepKeepsShape(s, step);
      GrantOrigin(s, step, g, r);
      BackedBefore(s, step, g, r, t, c);
      BackedLater(s, s', r, t, c);
    }
  }

  lemma BackedBefore(s: State, step: Step, g: Grant, r: Request, t: nat, c: nat)
    requires Safe(s) && Can(s, step) && r in s.requests && (g in s.grants || step == Vote(g.voter, r))
    requires r.term == g.term && r.from == g.candidate && g.voter != g.candidate && t < g.term
    requires Choosable(Do(s, step), t, c) && Acked(Do(s, step), t, g.voter, c)
    ensures t in s.reigns && r.lastTerm in s.reigns && c <= r.length
    ensures SameHistory(s.reigns[t].log, s.reigns[r.lastTerm].log, c)
  {
    if g in s.grants {
      VoterAckIsOld(s, step, g, t, c);
      AckedBounded(s, t, g.voter, c);
      ChoosableBefore(s, step, t, c);
      assert BackAt(s, g, r, t, c);
    } else {
      AckedHeld(s, step, t, g.voter, c);
      FreshHolds(s, g.voter, r, t, c);
    }
  }

  lemma StepKeepsRequestsSingle(s: State, step: Step)
    requires Shape(s) && RequestsSingle(s) && Can(s, step)
    ensures RequestsSingle(Do(s, step))
  {
    if step.Stand? {
      var n := s.nodes[step.i];
      assert NodeFits(s, step.i, n);
      forall r | r in s.requests && r.from == step.i ensures r.term <= n.term { assert RequestFits(s, r); }
    }
  }

  // ------------------------------------------------------------- every run

  // MAIN RESULT.  Every step keeps the whole invariant.
  lemma StepKeepsSafe(s: State, step: Step)
    requires Safe(s) && Can(s, step)
    ensures Safe(Do(s, step))
  {
    var s' := Do(s, step);
    StepKeepsShape(s, step);
    StepKeepsRequestsSingle(s, step);
    forall t: nat, u: nat, c: nat ensures CompleteAt(s', t, u, c) { StepKeepsComplete(s, step, t, u, c); }
    forall t: nat, i: NodeId, c: nat ensures HoldAt(s', t, i, c) { StepKeepsHold(s, step, t, i, c); }
    forall g: Grant, r: Request, t: nat, c: nat ensures BackAt(s', g, r, t, c) { StepKeepsBack(s, step, g, r, t, c); }
  }

  lemma InitialIsSafe(s: State)
    requires Initial(s)
    ensures Safe(s)
  {
    forall i | i in s.nodes ensures NodeFits(s, i, s.nodes[i]) {
      assert s.nodes[i] == FirstNode();
    }
  }

  lemma {:induction false} RunIsSafe(s0: State, steps: seq<Step>, s: State)
    requires Reaches(s0, steps, s)
    ensures Safe(s)
    decreases |steps|
  {
    if steps == [] {
      InitialIsSafe(s);
    } else {
      var last := |steps| - 1;
      var p :| Reaches(s0, steps[..last], p) && Can(p, steps[last]) && s == Do(p, steps[last]);
      RunIsSafe(s0, steps[..last], p);
      StepKeepsSafe(p, steps[last]);
    }
  }

  // MAIN RESULT.  Election safety: in every run, no two nodes lead the same term.
  lemma OneLeaderPerTerm(s0: State, steps: seq<Step>, s: State, i: NodeId, j: NodeId)
    requires Reaches(s0, steps, s) && i in s.nodes && j in s.nodes
    requires s.nodes[i].role == Leader && s.nodes[j].role == Leader && s.nodes[i].term == s.nodes[j].term
    ensures i == j
  {
    RunIsSafe(s0, steps, s);
    assert NodeFits(s, i, s.nodes[i]) && NodeFits(s, j, s.nodes[j]);
  }

  // MAIN RESULT.  Log matching: two nodes with the same term at a position hold the same frames up to it.
  lemma LogsMatch(s0: State, steps: seq<Step>, s: State, i: NodeId, j: NodeId, p: nat)
    requires Reaches(s0, steps, s) && i in s.nodes && j in s.nodes
    requires p < |s.nodes[i].log| && p < |s.nodes[j].log| && s.nodes[i].log[p].term == s.nodes[j].log[p].term
    ensures s.nodes[i].log[..p + 1] == s.nodes[j].log[..p + 1]
  {
    RunIsSafe(s0, steps, s);
    assert NodeFits(s, i, s.nodes[i]) && NodeFits(s, j, s.nodes[j]);
    SameTermSameHistory(s.reigns, s.nodes[i].log, s.nodes[j].log, p);
  }

  // A committed position may still be committed: its quorum has acknowledged it.
  lemma CommittedIsChoosable(s: State, g: Gossip)
    requires Shape(s) && g in s.gossip
    ensures Choosable(s, g.term, g.commit)
  {
    assert GossipFits(s, g);
    assert QuorumMay(s, g.term, g.commit, g.holders);
  }

  // MAIN RESULT.  Leader completeness: in every run, every leader of a later term has all that was committed.
  lemma LeadersAreComplete(s0: State, steps: seq<Step>, s: State, g: Gossip, u: nat)
    requires Reaches(s0, steps, s) && g in s.gossip && u in s.reigns && g.term <= u
    ensures g.term in s.reigns && SameHistory(s.reigns[g.term].log, s.reigns[u].log, g.commit)
  {
    RunIsSafe(s0, steps, s);
    CommittedBelow(s, g, u);
  }

  // A committed history is below every later leader's.
  lemma CommittedBelow(s: State, g: Gossip, u: nat)
    requires Safe(s) && g in s.gossip && u in s.reigns && g.term <= u
    ensures g.term in s.reigns && SameHistory(s.reigns[g.term].log, s.reigns[u].log, g.commit)
  {
    CommittedIsChoosable(s, g);
    assert CompleteAt(s, g.term, u, g.commit);
  }

  // MAIN RESULT.  Durability: in every run, a quorum holds all of every committed position, durably.
  lemma CommittedIsDurable(s0: State, steps: seq<Step>, s: State, g: Gossip)
    requires Reaches(s0, steps, s) && g in s.gossip
    ensures g.term in s.reigns && IsMajority(g.holders, s.nodes.Keys)
    ensures forall i | i in g.holders :: SameHistory(s.reigns[g.term].log, s.nodes[i].log, g.commit)
  {
    RunIsSafe(s0, steps, s);
    CommittedIsChoosable(s, g);
    assert GossipFits(s, g);
    forall i | i in g.holders ensures SameHistory(s.reigns[g.term].log, s.nodes[i].log, g.commit) {
      assert HoldAt(s, g.term, i, g.commit);
    }
  }

  // MAIN RESULT.  Any two committed positions of a run lie on one history.
  lemma CommitsAgree(s: State, g: Gossip, h: Gossip)
    requires Safe(s) && g in s.gossip && h in s.gossip && g.commit <= h.commit
    ensures g.term in s.reigns && h.term in s.reigns
    ensures SameHistory(s.reigns[g.term].log, s.reigns[h.term].log, g.commit)
  {
    CommittedIsChoosable(s, g);
    CommittedIsChoosable(s, h);
    assert CompleteAt(s, g.term, h.term, g.commit) && CompleteAt(s, h.term, g.term, h.commit);
    var a, b := s.reigns[g.term].log, s.reigns[h.term].log;
    if h.term < g.term {
      assert a[..h.commit][..g.commit] == a[..g.commit] && b[..h.commit][..g.commit] == b[..g.commit];
    }
  }
}
