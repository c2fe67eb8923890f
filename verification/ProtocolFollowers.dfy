/**
What followers apply: the commit position a node takes from gossip, the frontier a
reconcile validates, and when the two together stay on the committed history.
 */
module ProtocolFollowers {
  import opened ClusterConfig
  import opened Numbers
  import opened Protocol
  import opened ProtocolShape
  import opened ProtocolSteps
  import opened ProtocolSafety
  import opened ProtocolTheorems

  // ------------------------------------------------------------- the validated frontier

  // What is validated is a prefix of the vouching leader's history.
  ghost predicate FrontierFits(s: State, n: Node) {
    && n.validated <= |n.log| && n.vouched <= n.term
    && (n.validated > 0 ==> n.vouched in s.reigns && SameHistory(s.reigns[n.vouched].log, n.log, n.validated))
  }

  // Who has been vouched for by its current term: a leader, a node streaming its term, and every node whose
  // gossip is not held, except exactly those that stood or had an older cut acknowledged and were not judged since.
  ghost predicate VouchFits(n: Node) {
    && (n.role == Leader ==> n.vouched == n.term)
    && (n.gate && n.stream == n.term ==> n.vouched == n.term)
    && (n.unjudged ==> n.vouched < n.term)
    && (!n.awaiting && !n.unjudged ==> n.vouched == n.term)
  }

  ghost predicate FollowerFits(s: State, n: Node) {
    FrontierFits(s, n) && VouchFits(n)
  }

  ghost predicate FollowersFit(s: State) {
    forall i {:trigger FollowerFits(s, s.nodes[i])} | i in s.nodes :: FollowerFits(s, s.nodes[i])
  }

  lemma FollowerStays(s: State, s': State, n: Node)
    requires FollowerFits(s, n) && ReignsGrow(s.reigns, s'.reigns)
    ensures FollowerFits(s', n)
  {
    if n.validated > 0 {
      assert ReignGrows(s.reigns[n.vouched], s'.reigns[n.vouched], n.vouched);
      SameHistoryLater(s.reigns[n.vouched].log, n.log, s'.reigns[n.vouched].log, n.log, n.validated);
    }
  }

  lemma FrontierOfLongerLog(s: State, n: Node, m: Node)
    requires FrontierFits(s, n) && n.log <= m.log && m.vouched == n.vouched && n.term <= m.term
    requires m.validated <= n.validated
    ensures FrontierFits(s, m)
  {
    if m.validated > 0 {
      assert m.log[..m.validated] == n.log[..n.validated][..m.validated];
      assert s.reigns[n.vouched].log[..m.validated] == s.reigns[n.vouched].log[..n.validated][..m.validated];
    }
  }

  lemma AcceptKeepsFollower(s: State, i: NodeId, n: Node)
    requires ReignsFit(s.reigns) && NodeFits(s, i, n) && FollowerFits(s, n) && n.role != Leader
    requires n.gate && n.stream in s.reigns && |n.log| < |s.reigns[n.stream].log|
    ensures FollowerFits(s, Accepting(n, s.reigns[n.stream].log[|n.log|]))
  {
    var m := Accepting(n, s.reigns[n.stream].log[|n.log|]);
    AcceptedLog(s.reigns, n);
    assert n.log <= m.log && VouchFits(m);
    if m.validated <= n.validated {
      FrontierOfLongerLog(s, n, m);
    } else {
      assert n.stream == n.term && m.validated == |m.log| && m.log[..|m.log|] == m.log;
    }
  }

  lemma FsyncKeepsFollower(s: State, i: NodeId, n: Node, k: nat)
    requires NodeFits(s, i, n) && FollowerFits(s, n) && n.role == Leader
    requires n.term in s.reigns && |n.log| <= k <= |s.reigns[n.term].log|
    ensures FollowerFits(s, Grown(n, s.reigns[n.term].log[..k]))
  {
    var l := s.reigns[n.term].log[..k];
    var m := Grown(n, l);
    assert n.log <= l && VouchFits(m);
    if m.validated <= n.validated {
      FrontierOfLongerLog(s, n, m);
    } else {
      assert m.validated == k && l[..k] == l;
    }
  }

  lemma ReconcileKeepsFollower(s: State, i: NodeId, n: Node)
    requires ReignsFit(s.reigns) && NodeFits(s, i, n) && n.role != Leader && n.term in s.reigns
    ensures FollowerFits(s, Reconciling(n, s.reigns[n.term].log))
  {
    AgreedIs(s.reigns, n.log, n.term, 0);
  }

  lemma SettleKeepsFollower(s: State, n: Node)
    requires FollowerFits(s, n)
    ensures FollowerFits(s, Settling(n))
  {
    assert n.log[..n.validated][..n.validated] == n.log[..n.validated];
  }

  lemma RestartKeepsFollower(s: State, i: NodeId, n: Node)
    requires ReignsFit(s.reigns) && NodeFits(s, i, n)
    ensures FollowerFits(s, Restarting(n))
  {
    LastTermFits(s.reigns, n.log);
    LastTermBelowMap(s.reigns, n.log, n.mapTerm, |n.log|);
    assert n.log[..|n.log|] == n.log;
    var m := Restarting(n);
    if m.mapTerm > 0 { assert n.log[..|n.log|] == s.reigns[m.mapTerm].log[..|n.log|]; }
  }

  lemma WinKeepsFollower(s: State, n: Node, log: Log)
    requires FollowerFits(s, n) && n.term in s.reigns && s.reigns[n.term].log == log && n.log <= log
    ensures FollowerFits(s, Leading(n))
  {
    if n.validated > 0 { assert n.log[..n.validated] == log[..n.validated]; }
  }

  // The moves that leave the log and the frontier alone.
  lemma SeatKeepsFollower(s: State, i: NodeId, step: Step)
    requires Shape(s) && Can(s, step) && i == step.i && FollowerFits(s, s.nodes[i])
    requires step.Stand? || step.Adopt? || step.Vote? || step.StepDown? || step.Send? || step.Commit? || step.Intake?
    ensures FollowerFits(s, Do(s, step).nodes[i])
  {
    var n := s.nodes[i];
    assert NodeFits(s, i, n);
    if n.role == Leader { assert ElectionFits(s, n.term); }
    var m := Do(s, step).nodes[i];
    assert m.log == n.log && m.validated == n.validated && m.vouched == n.vouched && n.term <= m.term;
    FrontierOfLongerLog(s, n, m);
    assert VouchFits(m);
  }

  lemma MoverKeepsFollower(s: State, step: Step)
    requires Shape(s) && Can(s, step) && FollowerFits(s, s.nodes[step.i])
    requires ReignsGrow(s.reigns, Do(s, step).reigns)
    ensures FollowerFits(Do(s, step), Do(s, step).nodes[step.i])
  {
    var i, s' := step.i, Do(s, step);
    var n := s.nodes[i];
    assert NodeFits(s, i, n);
    if step.Win? {
      FollowerStays(s, s', n);
      WinKeepsFollower(s', n, s'.reigns[n.term].log);
    } else if step.Append? {
      FollowerStays(s, s', n);
    } else {
      if step.Fsync? { FsyncKeepsFollower(s, i, n, step.n); }
      else if step.Accept? { AcceptKeepsFollower(s, i, n); }
      else if step.Reconcile? { ReconcileKeepsFollower(s, i, n); }
      else if step.Truncated? { SettleKeepsFollower(s, n); }
      else if step.Restart? { RestartKeepsFollower(s, i, n); }
      else { SeatKeepsFollower(s, i, step); }
      FollowerStays(s, s', s'.nodes[i]);
    }
  }

  lemma StepKeepsFollowers(s: State, step: Step)
    requires Shape(s) && FollowersFit(s) && Can(s, step)
    ensures FollowersFit(Do(s, step))
  {
    var s' := Do(s, step);
    StepKeepsShape(s, step);
    forall i | i in s'.nodes ensures FollowerFits(s', s'.nodes[i]) {
      assert FollowerFits(s, s.nodes[i]);
      if i == step.i { MoverKeepsFollower(s, step); } else { FollowerStays(s, s', s.nodes[i]); }
    }
  }

  // ------------------------------------------------------------- what is applied

  // The committed position g covers everything the node has taken as committed.
  ghost predicate Covers(s: State, n: Node, g: Gossip) {
    && g in s.gossip && g.term in s.reigns && g.term <= n.term
    && n.commit <= g.commit && SameHistory(s.reigns[g.term].log, n.log, n.commit)
  }

  // What the node applies is on the committed history.
  ghost predicate Applies(s: State, n: Node) {
    n.commit == 0 || exists g :: Covers(s, n, g)
  }

  // A cut in flight spares what was applied.
  ghost predicate Spares(n: Node) {
    n.truncating ==> n.commit <= n.validated
  }

  ghost predicate AllApply(s: State) {
    forall i {:trigger Applies(s, s.nodes[i])} | i in s.nodes :: Applies(s, s.nodes[i]) && Spares(s.nodes[i])
  }

  // The gossip is of a term no later than the one whose leader validated the node's frontier.
  predicate Vouched(s: State, step: Step) {
    step.Intake? && step.i in s.nodes ==> step.g.term <= s.nodes[step.i].vouched
  }

  lemma SameHistoryPrefix(a: Log, b: Log, c: nat, d: nat)
    requires SameHistory(a, b, c) && d <= c
    ensures SameHistory(a, b, d)
  {
    assert a[..c][..d] == a[..d] && b[..c][..d] == b[..d];
  }

  lemma CoversStays(s: State, s': State, n: Node, m: Node, g: Gossip)
    requires Covers(s, n, g) && ReignsGrow(s.reigns, s'.reigns) && s.gossip <= s'.gossip
    requires m.commit == n.commit && n.log <= m.log && n.term <= m.term
    ensures Covers(s', m, g)
  {
    assert ReignGrows(s.reigns[g.term], s'.reigns[g.term], g.term);
    SameHistoryLater(s.reigns[g.term].log, n.log, s'.reigns[g.term].log, m.log, n.commit);
  }

  // A reconcile never commands a cut below what was applied.
  lemma ReconcileKeepsApplied(s: State, i: NodeId, g: Gossip)
    requires Safe(s) && Can(s, Reconcile(i)) && Covers(s, s.nodes[i], g)
    ensures var m := Reconciling(s.nodes[i], s.reigns[s.nodes[i].term].log); Covers(s, m, g) && m.commit <= m.validated
  {
    var n := s.nodes[i];
    var leader := s.reigns[n.term].log;
    CommittedBelow(s, g, n.term);
    SameHistoryPrefix(s.reigns[g.term].log, leader, g.commit, n.commit);
    assert NodeFits(s, i, n);
    AgreedKeeps(s.reigns, n.log, n.term, n.commit);
  }

  lemma SettleKeepsApplied(s: State, n: Node, g: Gossip)
    requires Covers(s, n, g) && n.commit <= n.validated
    ensures Covers(s, Settling(n), g)
  {
    assert Settling(n).log[..n.commit] == n.log[..n.commit];
  }

  // A vouched position agrees with the committed history as far as the frontier goes.
  lemma VouchedAgrees(s: State, n: Node, g: Gossip)
    requires Safe(s) && FrontierFits(s, n) && g in s.gossip && g.term <= n.vouched && n.validated > 0
    ensures g.term in s.reigns && SameHistory(s.reigns[g.term].log, n.log, Min(g.commit, n.validated))
  {
    CommittedBelow(s, g, n.vouched);
    SameHistoryPrefix(s.reigns[g.term].log, s.reigns[n.vouched].log, g.commit, Min(g.commit, n.validated));
    SameHistoryPrefix(s.reigns[n.vouched].log, n.log, n.validated, Min(g.commit, n.validated));
  }

  lemma IntakeKeepsApplied(s: State, i: NodeId, g: Gossip)
    requires Safe(s) && FollowersFit(s) && AllApply(s) && Can(s, Intake(i, g)) && Vouched(s, Intake(i, g))
    ensures Applies(s, Do(s, Intake(i, g)).nodes[i])
  {
    var n := s.nodes[i];
    var m := Do(s, Intake(i, g)).nodes[i];
    assert Applies(s, n) && FollowerFits(s, n);
    if m.commit > n.commit {
      VouchedAgrees(s, n, g);
      assert Covers(s, m, g);
    } else if n.commit > 0 {
      var h :| Covers(s, n, h);
      assert Covers(s, m, h);
    }
  }

  lemma CommitCovers(s: State, i: NodeId, c: nat, holders: set<NodeId>)
    requires Shape(s) && Can(s, Commit(i, c, holders))
    ensures var s' := Do(s, Commit(i, c, holders)); Covers(s', s'.nodes[i], Gossip(s.nodes[i].term, c, holders))
  {
    var n := s.nodes[i];
    assert NodeFits(s, i, n);
    assert n.log[..c] == s.reigns[n.term].log[..c];
  }

  lemma MoverApplies(s: State, step: Step)
    requires Safe(s) && FollowersFit(s) && AllApply(s) && Can(s, step) && Vouched(s, step)
    ensures Applies(Do(s, step), Do(s, step).nodes[step.i])
  {
    var i, s' := step.i, Do(s, step);
    var n, m := s.nodes[i], s'.nodes[i];
    StepKeepsShape(s, step);
    assert Applies(s, n);
    if step.Intake? {
      IntakeKeepsApplied(s, i, step.g);
      assert s'.gossip == s.gossip && s'.reigns == s.reigns;
      if m.commit > 0 {
        var g :| Covers(s, m, g);
        assert Covers(s', m, g);
      }
    } else if step.Commit? {
      CommitCovers(s, i, step.c, step.holders);
    } else if m.commit > 0 {
      var g :| Covers(s, n, g);
      if step.Reconcile? {
        ReconcileKeepsApplied(s, i, g);
        assert Covers(s', m, g);
      } else if step.Truncated? {
        SettleKeepsApplied(s, n, g);
        assert Covers(s', m, g);
      } else {
        LogsGrow(s, step, i);
        CoversStays(s, s', n, m, g);
      }
    }
  }

  lemma MoverSpares(s: State, step: Step)
    requires Safe(s) && AllApply(s) && Can(s, step)
    ensures Spares(Do(s, step).nodes[step.i])
  {
    var i := step.i;
    var n := s.nodes[i];
    assert NodeFits(s, i, n) && Applies(s, n);
    if step.Reconcile? && n.commit > 0 {
      var g :| Covers(s, n, g);
      ReconcileKeepsApplied(s, i, g);
    }
  }

  lemma StepKeepsApplied(s: State, step: Step)
    requires Safe(s) && FollowersFit(s) && AllApply(s) && Can(s, step) && Vouched(s, step)
    ensures AllApply(Do(s, step))
  {
    var s' := Do(s, step);
    StepKeepsShape(s, step);
    forall i | i in s'.nodes ensures Applies(s', s'.nodes[i]) && Spares(s'.nodes[i]) {
      if i == step.i {
        MoverApplies(s, step);
        MoverSpares(s, step);
      } else {
        var n := s.nodes[i];
        assert Applies(s, n);
        if n.commit > 0 {
          var g :| Covers(s, n, g);
          CoversStays(s, s', n, n, g);
        }
      }
    }
  }

  // ------------------------------------------------------------- every run

  // A run whose gossip is always taken by nodes vouched for in its term.
  ghost predicate ReachesVouched(s0: State, steps: seq<Step>, s: State)
    decreases |steps|
  {
    if steps == [] then s == s0 && Initial(s0)
    else
      var last := |steps| - 1;
      exists p :: ReachesVouched(s0, steps[..last], p) && Can(p, steps[last]) && Vouched(p, steps[last]) &&
                  s == Do(p, steps[last])
  }

  lemma InitialFollows(s: State)
    requires Initial(s)
    ensures FollowersFit(s) && AllApply(s)
  {
    forall i | i in s.nodes ensures FollowerFits(s, s.nodes[i]) && Applies(s, s.nodes[i]) {
      assert s.nodes[i] == FirstNode();
    }
  }

  lemma {:induction false} RunKeepsFollowers(s0: State, steps: seq<Step>, s: State)
    requires Reaches(s0, steps, s)
    ensures FollowersFit(s)
    decreases |steps|
  {
    if steps == [] {
      InitialFollows(s);
    } else {
      var last := |steps| - 1;
      var p :| Reaches(s0, steps[..last], p) && Can(p, steps[last]) && s == Do(p, steps[last]);
      RunKeepsFollowers(s0, steps[..last], p);
      RunIsSafe(s0, steps[..last], p);
      StepKeepsFollowers(p, steps[last]);
    }
  }

  lemma {:induction false} VouchedRunApplies(s0: State, steps: seq<Step>, s: State)
    requires ReachesVouched(s0, steps, s)
    ensures Safe(s) && FollowersFit(s) && AllApply(s)
    decreases |steps|
  {
    if steps == [] {
      InitialIsSafe(s);
      InitialFollows(s);
    } else {
      var last := |steps| - 1;
      var p :| ReachesVouched(s0, steps[..last], p) && Can(p, steps[last]) && Vouched(p, steps[last]) &&
               s == Do(p, steps[last]);
      VouchedRunApplies(s0, steps[..last], p);
      StepKeepsSafe(p, steps[last]);
      StepKeepsFollowers(p, steps[last]);
      StepKeepsApplied(p, steps[last]);
    }
  }

  lemma CoveredAgree(s: State, n: Node, g: Gossip, m: Node, h: Gossip)
    requires Safe(s) && Covers(s, n, g) && Covers(s, m, h) && g.commit <= h.commit
    ensures SameHistory(n.log, m.log, Min(n.commit, m.commit))
  {
    var c := Min(n.commit, m.commit);
    CommitsAgree(s, g, h);
    SameHistoryPrefix(s.reigns[g.term].log, s.reigns[h.term].log, g.commit, c);
    SameHistoryPrefix(s.reigns[g.term].log, n.log, n.commit, c);
    SameHistoryPrefix(s.reigns[h.term].log, m.log, m.commit, c);
  }

  // MAIN RESULT.  State-machine agreement: in every vouched run, any two nodes have applied the same frames
  // as far as both have applied.
  lemma AppliedAgree(s0: State, steps: seq<Step>, s: State, i: NodeId, j: NodeId)
    requires ReachesVouched(s0, steps, s) && i in s.nodes && j in s.nodes
    ensures SameHistory(s.nodes[i].log, s.nodes[j].log, Min(s.nodes[i].commit, s.nodes[j].commit))
  {
    VouchedRunApplies(s0, steps, s);
    var n, m := s.nodes[i], s.nodes[j];
    assert Applies(s, n) && Applies(s, m);
    if n.commit > 0 && m.commit > 0 {
      var g :| Covers(s, n, g);
      var h :| Covers(s, m, h);
      if g.commit <= h.commit { CoveredAgree(s, n, g, m, h); } else { CoveredAgree(s, m, h, n, g); }
    }
  }

  // MAIN RESULT.  In every run, a node that may take gossip has been vouched for by its own term's leader if
  // and only if a reconcile came after the last time it stood, or had an older cut acknowledged, in that term.
  lemma JudgedIffVouched(s0: State, steps: seq<Step>, s: State, i: NodeId, g: Gossip)
    requires Reaches(s0, steps, s) && Can(s, Intake(i, g))
    ensures s.nodes[i].vouched == s.nodes[i].term <==> !s.nodes[i].unjudged
    ensures !s.nodes[i].unjudged ==> Vouched(s, Intake(i, g))
  {
    RunKeepsFollowers(s0, steps, s);
    assert FollowerFits(s, s.nodes[i]);
  }

  // Gossip is taken only by nodes that are not unjudged.
  predicate Judged(s: State, step: Step) {
    step.Intake? && step.i in s.nodes ==> !s.nodes[step.i].unjudged
  }

  ghost predicate ReachesJudged(s0: State, steps: seq<Step>, s: State)
    decreases |steps|
  {
    if steps == [] then s == s0 && Initial(s0)
    else
      var last := |steps| - 1;
      exists p :: ReachesJudged(s0, steps[..last], p) && Can(p, steps[last]) && Judged(p, steps[last]) &&
                  s == Do(p, steps[last])
  }

  lemma {:induction false} JudgedRunIsVouched(s0: State, steps: seq<Step>, s: State)
    requires ReachesJudged(s0, steps, s)
    ensures Reaches(s0, steps, s) && ReachesVouched(s0, steps, s)
    decreases |steps|
  {
    if steps != [] {
      var last := |steps| - 1;
      var p :| ReachesJudged(s0, steps[..last], p) && Can(p, steps[last]) && Judged(p, steps[last]) &&
               s == Do(p, steps[last]);
      JudgedRunIsVouched(s0, steps[..last], p);
      if steps[last].Intake? { JudgedIffVouched(s0, steps[..last], p, steps[last].i, steps[last].g); }
    }
  }

  // MAIN RESULT.  State-machine agreement under a guard a node can check on itself: in every run in which no
  // unjudged node takes gossip, any two nodes have applied the same frames as far as both have applied.
  lemma JudgedRunsAgree(s0: State, steps: seq<Step>, s: State, i: NodeId, j: NodeId)
    requires ReachesJudged(s0, steps, s) && i in s.nodes && j in s.nodes
    ensures SameHistory(s.nodes[i].log, s.nodes[j].log, Min(s.nodes[i].commit, s.nodes[j].commit))
  {
    JudgedRunIsVouched(s0, steps, s);
    AppliedAgree(s0, steps, s, i, j);
  }

  // MAIN RESULT.  Taking gossip keeps a node on the committed history if and only if it does not move past
  // what a reconcile against the gossiping leader would keep.
  lemma IntakeIsSafeIff(s: State, i: NodeId, g: Gossip)
    requires Safe(s) && FollowersFit(s) && AllApply(s) && Can(s, Intake(i, g)) && g.term in s.reigns
    ensures var n := s.nodes[i]; var s' := Do(s, Intake(i, g));
            Applies(s', s'.nodes[i]) <==>
              Min(g.commit, n.validated) <= Max(n.commit, Agreed(n.log, s.reigns[g.term].log, 0))
  {
    var n, s' := s.nodes[i], Do(s, Intake(i, g));
    var m, target := s'.nodes[i], Min(g.commit, n.validated);
    assert Applies(s, n) && FollowerFits(s, n) && NodeFits(s, i, n) && GossipFits(s, g);
    AgreedIs(s.reigns, n.log, g.term, 0);
    if target <= n.commit {
      if n.commit > 0 {
        var h :| Covers(s, n, h);
        assert Covers(s', m, h);
      }
    } else if target <= Agreed(n.log, s.reigns[g.term].log, 0) {
      SameHistoryPrefix(s.reigns[g.term].log, n.log, Agreed(n.log, s.reigns[g.term].log, 0), target);
      assert Covers(s', m, g);
    } else if exists h :: Covers(s', m, h) {
      var h :| Covers(s', m, h);
      CoveredPastAgreed(s, n, g, h, target);
    }
  }

  lemma CoveredPastAgreed(s: State, n: Node, g: Gossip, h: Gossip, c: nat)
    requires Safe(s) && g in s.gossip && h in s.gossip && g.term in s.reigns && h.term in s.reigns
    requires c <= g.commit && c <= h.commit && SameHistory(s.reigns[h.term].log, n.log, c) && Matches(s.reigns, n.log)
    ensures c <= Agreed(n.log, s.reigns[g.term].log, 0)
  {
    if g.commit <= h.commit { CommitsAgree(s, g, h); } else { CommitsAgree(s, h, g); }
    SameHistoryPrefix(s.reigns[g.term].log, s.reigns[h.term].log, Min(g.commit, h.commit), c);
    AgreedKeeps(s.reigns, n.log, g.term, c);
  }
}
