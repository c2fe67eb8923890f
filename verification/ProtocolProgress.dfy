/**
What the protocol's steps achieve.  Commit positions never fall but in a restart; and from every
state of every run the cluster can still elect a leader and commit any payload on every node, and
go on committing without another election or reconcile.
 */
module ProtocolProgress {
  import opened ClusterConfig
  import opened Numbers
  import opened Protocol
  import opened ProtocolShape
  import opened ProtocolSteps
  import opened ProtocolSafety
  import opened ProtocolTheorems

  // ------------------------------------------------------------- paths

  ghost predicate Path(s: State, steps: seq<Step>, t: State)
    decreases |steps|
  {
    if steps == [] then t == s else Can(s, steps[0]) && Path(Do(s, steps[0]), steps[1..], t)
  }

  // ------------------------------------------------------------- commit positions

  lemma CommitStep(s: State, step: Step, j: NodeId)
    requires Can(s, step) && j in s.nodes && step != Restart(j)
    ensures j in Do(s, step).nodes && s.nodes[j].commit <= Do(s, step).nodes[j].commit
  {
  }

  // MAIN RESULT.  Between its restarts no node's commit position ever falls, whatever arrives and however late.
  lemma {:induction false} CommitNeverFalls(s: State, steps: seq<Step>, t: State, j: NodeId)
    requires Path(s, steps, t) && j in s.nodes && Restart(j) !in steps
    ensures j in t.nodes && s.nodes[j].commit <= t.nodes[j].commit
    decreases |steps|
  {
    if steps != [] {
      CommitStep(s, steps[0], j);
      CommitNeverFalls(Do(s, steps[0]), steps[1..], t, j);
    }
  }

  // How far an intake takes a node: to the gossiped position as far as its log is validated, unless it is there
  // already; nobody else moves, and nothing else of the node.
  lemma IntakeMoves(s: State, i: NodeId, g: Gossip)
    requires Can(s, Intake(i, g))
    ensures var n, m, t := s.nodes[i], Do(s, Intake(i, g)).nodes[i], Do(s, Intake(i, g));
            && (m.commit == n.commit || (m.commit == g.commit <= n.validated) || (m.commit == n.validated <= g.commit))
            && (g.commit <= m.commit || n.validated <= m.commit)
            && m == n.(commit := m.commit) && t == s.(nodes := t.nodes) && t.nodes.Keys == s.nodes.Keys
            && forall j | j in s.nodes && j != i :: t.nodes[j] == s.nodes[j]
  {
  }

  // A frame that opens a newer term is held to be unconfirmed, and from then on the validated frontier waits: only a
  // reconcile or a restart of the node moves it up again.
  lemma FrontierWaits(s: State, step: Step, j: NodeId)
    requires Can(s, step) && j in s.nodes && step != Restart(j) && step != Reconcile(j)
    ensures var n, m := s.nodes[j], Do(s, step).nodes[j];
            && (n.unconfirmed ==> m.unconfirmed && m.validated <= n.validated)
            && (|m.log| == |n.log| + 1 && m.role != Leader && m.mapTerm > n.mapTerm ==>
                  m.unconfirmed && m.validated <= |n.log|)
  {
  }

  // ------------------------------------------------------------- what can be reached

  // A step that needs neither an election nor a reconcile.
  predicate IsStreaming(step: Step) {
    step.Append? || step.Fsync? || step.Accept? || step.Send? || step.Commit? || step.Intake?
  }

  // Some path leads from s to t; a quiet one by streaming alone.
  ghost predicate Leads(s: State, t: State, quiet: bool) {
    exists steps :: Path(s, steps, t) && (quiet ==> forall step | step in steps :: IsStreaming(step))
  }

  lemma LeadsNowhere(s: State, quiet: bool)
    ensures Leads(s, s, quiet)
  {
    assert Path(s, [], s);
  }

  lemma {:induction false} PathConcat(s: State, a: seq<Step>, m: State, b: seq<Step>, t: State)
    requires Path(s, a, m) && Path(m, b, t)
    ensures Path(s, a + b, t)
    decreases |a|
  {
    if a == [] {
      assert a + b == b;
    } else {
      var first, rest := a[0], a[1..];
      assert a + b == [first] + (rest + b) && ([first] + (rest + b))[1..] == rest + b;
      PathConcat(Do(s, first), rest, m, b, t);
    }
  }

  lemma LeadsOn(s: State, m: State, t: State, quiet: bool)
    requires Leads(s, m, quiet) && Leads(m, t, quiet)
    ensures Leads(s, t, quiet)
  {
    var a :| Path(s, a, m) && (quiet ==> forall step | step in a :: IsStreaming(step));
    var b :| Path(m, b, t) && (quiet ==> forall step | step in b :: IsStreaming(step));
    PathConcat(s, a, m, b, t);
  }

  lemma OneStep(s: State, step: Step, quiet: bool)
    requires Can(s, step) && (quiet ==> IsStreaming(step))
    ensures Leads(s, Do(s, step), quiet)
  {
    assert [step][1..] == [];
    assert Path(Do(s, step), [], Do(s, step));
    assert Path(s, [step], Do(s, step));
  }

  lemma OneMore(s: State, m: State, step: Step, quiet: bool)
    requires Leads(s, m, quiet) && Can(m, step) && (quiet ==> IsStreaming(step))
    ensures Leads(s, Do(m, step), quiet)
  {
    OneStep(m, step, quiet);
    LeadsOn(s, m, Do(m, step), quiet);
  }

  lemma {:induction false} PathIsSafe(s: State, steps: seq<Step>, t: State)
    requires Safe(s) && Path(s, steps, t)
    ensures Safe(t)
    decreases |steps|
  {
    if steps != [] {
      StepKeepsSafe(s, steps[0]);
      PathIsSafe(Do(s, steps[0]), steps[1..], t);
    }
  }

  lemma LeadsToSafe(s: State, t: State, quiet: bool)
    requires Safe(s) && Leads(s, t, quiet)
    ensures Safe(t)
  {
    var steps :| Path(s, steps, t) && (quiet ==> forall step | step in steps :: IsStreaming(step));
    PathIsSafe(s, steps, t);
  }

  // From s to t only these nodes have moved, and messages have only been added.
  ghost predicate Only(s: State, t: State, moved: set<NodeId>) {
    && t.nodes.Keys == s.nodes.Keys && t.reigns == s.reigns
    && (forall j | j in s.nodes && j !in moved :: t.nodes[j] == s.nodes[j])
    && s.requests <= t.requests && s.grants <= t.grants && s.reports <= t.reports && s.gossip <= t.gossip
  }

  lemma OnlyOn(s: State, m: State, t: State, a: set<NodeId>, b: set<NodeId>)
    requires Only(s, m, a) && Only(m, t, b)
    ensures Only(s, t, a + b)
  {
  }

  // ------------------------------------------------------------- everybody restarts

  lemma {:induction false} RestartAll(s: State, todo: set<NodeId>) returns (t: State)
    requires todo <= s.nodes.Keys
    ensures Leads(s, t, false) && Only(s, t, todo) && forall j | j in todo :: t.nodes[j] == Restarting(s.nodes[j])
    decreases |todo|
  {
    if todo == {} {
      LeadsNowhere(s, false);
      t := s;
    } else {
      var j :| j in todo;
      var m := RestartAll(s, todo - {j});
      OneMore(s, m, Restart(j), false);
      t := Do(m, Restart(j));
    }
  }

  // ------------------------------------------------------------- the freshest node stands

  predicate AsFresh(a: Node, b: Node) {
    a.mapTerm > b.mapTerm || (a.mapTerm == b.mapTerm && |a.log| >= |b.log|)
  }

  lemma {:induction false} Freshest(s: State, all: set<NodeId>) returns (k: NodeId)
    requires all != {} && all <= s.nodes.Keys
    ensures k in all && forall j | j in all :: AsFresh(s.nodes[k], s.nodes[j])
    decreases |all|
  {
    var j :| j in all;
    if all == {j} {
      k := j;
    } else {
      var m := Freshest(s, all - {j});
      k := if AsFresh(s.nodes[m], s.nodes[j]) then m else j;
    }
  }

  lemma {:induction false} TermsBounded(s: State, all: set<NodeId>) returns (u: nat)
    requires all <= s.nodes.Keys
    ensures forall j | j in all :: s.nodes[j].term <= u && s.nodes[j].voteTerm <= u
    decreases |all|
  {
    if all == {} {
      u := 0;
    } else {
      var j :| j in all;
      var v := TermsBounded(s, all - {j});
      u := Max(v, Max(s.nodes[j].term, s.nodes[j].voteTerm));
    }
  }

  lemma {:induction false} ReignsBounded(all: set<nat>) returns (u: nat)
    ensures forall t | t in all :: t <= u
    decreases |all|
  {
    if all == {} {
      u := 0;
    } else {
      var x :| x in all;
      var v := ReignsBounded(all - {x});
      u := Max(v, x);
      forall t | t in all ensures t <= u { assert t == x || t in all - {x}; }
    }
  }

  // Node k stands for term u + 1 although it was only in an older term.
  lemma StandFor(s: State, k: NodeId, u: nat) returns (t: State)
    requires k in s.nodes && s.nodes[k].term < u && !s.nodes[k].truncating
    ensures Leads(s, t, false) && Only(s, t, {k})
    ensures var n, m := s.nodes[k], t.nodes[k];
            && m == Standing(k, Adopting(n, u)) && m.bid in t.requests && Grant(u + 1, k, k) in t.grants
  {
    var m := Do(s, Adopt(k, u));
    OneStep(s, Adopt(k, u), false);
    OneMore(s, m, Stand(k), false);
    t := Do(m, Stand(k));
  }

  // Everybody else votes for it.
  lemma {:induction false} VoteAll(s: State, r: Request, todo: set<NodeId>) returns (t: State)
    requires todo <= s.nodes.Keys && r in s.requests && r.from !in todo
    requires forall j | j in todo :: var n := s.nodes[j]; n.term < r.term && n.voteTerm < r.term && Fresh(r, n)
    ensures Leads(s, t, false) && Only(s, t, todo)
    ensures forall j | j in todo :: t.nodes[j] == Voting(s.nodes[j], r) && Grant(r.term, j, r.from) in t.grants
    decreases |todo|
  {
    if todo == {} {
      LeadsNowhere(s, false);
      t := s;
    } else {
      var j :| j in todo;
      var m := VoteAll(s, r, todo - {j});
      t := VoteOne(m, r, j);
      LeadsOn(s, m, t, false);
      OnlyOn(s, m, t, todo - {j}, {j});
      assert todo - {j} + {j} == todo;
    }
  }

  lemma VoteOne(s: State, r: Request, j: NodeId) returns (t: State)
    requires j in s.nodes && r in s.requests && r.from != j
    requires var n := s.nodes[j]; n.term < r.term && n.voteTerm < r.term && Fresh(r, n)
    ensures Leads(s, t, false) && Only(s, t, {j})
    ensures t.nodes[j] == Voting(s.nodes[j], r) && Grant(r.term, j, r.from) in t.grants
  {
    OneStep(s, Vote(j, r), false);
    t := Do(s, Vote(j, r));
  }

  // ------------------------------------------------------------- it leads and appends

  // Node k leads term u and holds durably all it has appended.
  ghost predicate Presides(s: State, k: NodeId, u: nat) {
    && k in s.nodes && u in s.reigns && s.reigns[u].leader == k && s.reigns[u].base < |s.reigns[u].log|
    && LastTerm(s.reigns[u].log) == u
    && var n := s.nodes[k];
    n.role == Leader && n.term == n.stream == n.mapTerm == u && n.log == s.reigns[u].log && n.commit < |n.log|
  }

  lemma AllAreMajority(all: set<NodeId>)
    requires all != {}
    ensures IsMajority(all, all)
  {
  }

  lemma WinAll(s: State, k: NodeId) returns (t: State)
    requires k in s.nodes && s.nodes[k].role == Candidate
    requires forall j | j in s.nodes :: Grant(s.nodes[k].term, j, k) in s.grants
    ensures var n := s.nodes[k];
            t == s.(nodes := s.nodes[k := Leading(n)],
                    reigns := s.reigns[n.term := Reign(k, s.nodes.Keys, |n.log|, n.log + [Frame(n.term, NEW_TERM)])])
    ensures Leads(s, t, false)
  {
    AllAreMajority(s.nodes.Keys);
    OneStep(s, Win(k, s.nodes.Keys), false);
    t := Do(s, Win(k, s.nodes.Keys));
  }

  // The leader appends a payload and has it on disk.
  lemma AppendOne(s: State, k: NodeId, payload: int) returns (t: State)
    requires k in s.nodes && s.nodes[k].role == Leader && s.nodes[k].term in s.reigns
    requires s.nodes[k].log <= s.reigns[s.nodes[k].term].log
    ensures Leads(s, t, true)
    ensures var n := s.nodes[k];
            var l := s.reigns[n.term].log + [Frame(n.term, payload)];
            t == s.(nodes := s.nodes[k := Grown(n, l)], reigns := s.reigns[n.term := s.reigns[n.term].(log := l)])
  {
    var n := s.nodes[k];
    var l := s.reigns[n.term].log + [Frame(n.term, payload)];
    var m := Do(s, Append(k, payload));
    OneStep(s, Append(k, payload), true);
    assert m.nodes[k] == n && m.reigns[n.term].log == l && l[..|l|] == l;
    OneMore(s, m, Fsync(k, |l|), true);
    t := Do(m, Fsync(k, |l|));
  }

  lemma Quieter(s: State, t: State)
    requires Leads(s, t, true)
    ensures Leads(s, t, false)
  {
    var steps :| Path(s, steps, t) && forall step | step in steps :: IsStreaming(step);
  }

  lemma LeadAndAppend(s: State, k: NodeId, payload: int) returns (t: State)
    requires k in s.nodes && s.nodes[k].role == Candidate && s.nodes[k].commit == 0
    requires forall j | j in s.nodes :: Grant(s.nodes[k].term, j, k) in s.grants
    ensures var u := s.nodes[k].term;
            && Leads(s, t, false) && Presides(t, k, u) && t.nodes.Keys == s.nodes.Keys
            && t.reigns[u].log == s.nodes[k].log + [Frame(u, NEW_TERM), Frame(u, payload)]
            && forall j | j in s.nodes && j != k :: t.nodes[j] == s.nodes[j]
  {
    var u, log := s.nodes[k].term, s.nodes[k].log;
    var m := WinAll(s, k);
    t := AppendOne(m, k, payload);
    Quieter(m, t);
    LeadsOn(s, m, t, false);
    assert log + [Frame(u, NEW_TERM)] + [Frame(u, payload)] == log + [Frame(u, NEW_TERM), Frame(u, payload)];
  }

  // A follower that has come to term u and has nothing in flight.
  predicate Waits(n: Node, u: nat) {
    n.role == Follower && n.term == n.stream == u && !n.truncating && n.commit == 0
  }

  // From any safe state some node can come to lead a term of its own, all others following it.
  lemma Elect(s: State, payload: int) returns (t: State, k: NodeId, u: nat)
    requires s.nodes != map[]
    ensures Leads(s, t, false) && t.nodes.Keys == s.nodes.Keys && Presides(t, k, u)
    ensures EndsIn(t.reigns[u].log, Frame(u, payload)) && forall v | v in s.reigns :: v < u
    ensures forall j | j in t.nodes && j != k :: Waits(t.nodes[j], u)
  {
    var a;
    a, k, u := StartOver(s);
    var c := Campaign(a, k, u);
    t := LeadAndAppend(c, k, payload);
    LeadsOn(a, c, t, false);
    LeadsOn(s, a, t, false);
  }

  lemma Campaign(a: State, k: NodeId, u: nat) returns (c: State)
    requires k in a.nodes && u >= 1
    requires forall j | j in a.nodes :: AsFresh(a.nodes[k], a.nodes[j]) && Restarted(a.nodes[j])
    requires forall j | j in a.nodes :: a.nodes[j].term < u - 1 && a.nodes[j].voteTerm < u - 1
    ensures Leads(a, c, false) && c.nodes.Keys == a.nodes.Keys
    ensures c.nodes[k].role == Candidate && c.nodes[k].commit == 0 && c.nodes[k].term == u
    ensures forall j | j in c.nodes :: Grant(u, j, k) in c.grants && (j != k ==> Waits(c.nodes[j], u))
  {
    var b := StandFor(a, k, u - 1);
    c := VotesCast(a, b, k, u);
    LeadsOn(a, b, c, false);
  }

  // All nodes restart, k is the freshest of them, and u - 1 is above every term there is.
  lemma StartOver(s: State) returns (a: State, k: NodeId, u: nat)
    requires s.nodes != map[]
    ensures Leads(s, a, false) && a.nodes.Keys == s.nodes.Keys && k in a.nodes && u >= 1
    ensures forall j | j in a.nodes :: AsFresh(a.nodes[k], a.nodes[j]) && Restarted(a.nodes[j])
    ensures forall j | j in a.nodes :: a.nodes[j].term < u - 1 && a.nodes[j].voteTerm < u - 1
    ensures forall v | v in s.reigns :: v < u
  {
    var all := s.nodes.Keys;
    a := RestartAll(s, all);
    k := Freshest(a, all);
    var v := TermsBounded(a, all);
    var w := ReignsBounded(s.reigns.Keys);
    u := Max(v, w) + 2;
  }

  lemma VotesCast(a: State, b: State, k: NodeId, u: nat) returns (c: State)
    requires k in a.nodes && u >= 1 && Only(a, b, {k}) && b.nodes[k] == Standing(k, Adopting(a.nodes[k], u - 1))
    requires b.nodes[k].bid in b.requests && Grant(u, k, k) in b.grants
    requires forall j | j in a.nodes :: AsFresh(a.nodes[k], a.nodes[j]) && Restarted(a.nodes[j])
    requires forall j | j in a.nodes :: a.nodes[j].term < u && a.nodes[j].voteTerm < u
    ensures Leads(b, c, false) && c.nodes.Keys == b.nodes.Keys && c.nodes[k] == b.nodes[k]
    ensures forall j | j in c.nodes :: Grant(u, j, k) in c.grants && (j != k ==> Waits(c.nodes[j], u))
  {
    var r := b.nodes[k].bid;
    c := VoteAll(b, r, b.nodes.Keys - {k});
  }

  predicate Restarted(n: Node) {
    n.role == Follower && !n.truncating && n.commit == 0
  }

  // ------------------------------------------------------------- the others follow

  // A follower of term u whose data plane is open on a prefix of the leader's log.
  predicate InStream(n: Node, u: nat, l: Log) {
    && n.role == Follower && n.term == n.stream == u && !n.truncating && n.gate && !n.awaiting
    && n.log <= l && n.commit <= |n.log|
  }

  // It holds all of the log, confirmed.
  predicate InStep(n: Node, u: nat, l: Log) {
    InStream(n, u, l) && n.log == l && n.mapTerm == u && !n.unconfirmed && n.validated == |l|
  }

  // A reconcile, with the cut it may command, leaves a prefix of the leader's log.
  lemma JudgeOne(s: State, j: NodeId, u: nat) returns (t: State)
    requires Safe(s) && u in s.reigns && j in s.nodes && Waits(s.nodes[j], u)
    ensures Leads(s, t, false) && Only(s, t, {j}) && InStream(t.nodes[j], u, s.reigns[u].log)
  {
    var n, l := s.nodes[j], s.reigns[u].log;
    assert NodeFits(s, j, n);
    AgreedIs(s.reigns, n.log, u, 0);
    var v := Agreed(n.log, l, 0);
    t := Do(s, Reconcile(j));
    OneStep(s, Reconcile(j), false);
    if v < |n.log| {
      OneMore(s, t, Truncated(j), false);
      t := Do(t, Truncated(j));
    } else {
      assert n.log[..v] == n.log;
    }
  }

  // Frame by frame it takes the rest.
  lemma {:induction false} CatchUp(s: State, j: NodeId, u: nat) returns (t: State)
    requires j in s.nodes && u in s.reigns && InStream(s.nodes[j], u, s.reigns[u].log)
    ensures Leads(s, t, true) && Only(s, t, {j})
    ensures InStream(t.nodes[j], u, s.reigns[u].log) && t.nodes[j].log == s.reigns[u].log
    decreases |s.reigns[u].log| - |s.nodes[j].log|
  {
    var n, l := s.nodes[j], s.reigns[u].log;
    if |n.log| == |l| {
      LeadsNowhere(s, true);
      t := s;
    } else {
      OneStep(s, Accept(j), true);
      var m := Do(s, Accept(j));
      assert m.nodes[j].log == n.log + [l[|n.log|]] <= l;
      t := CatchUp(m, j, u);
      LeadsOn(s, m, t, true);
    }
  }

  // Judged once more it holds everything confirmed.
  lemma ConfirmOne(s: State, j: NodeId, u: nat) returns (t: State)
    requires Safe(s) && j in s.nodes && u in s.reigns && LastTerm(s.reigns[u].log) == u
    requires InStream(s.nodes[j], u, s.reigns[u].log) && s.nodes[j].log == s.reigns[u].log
    ensures Leads(s, t, false) && Only(s, t, {j}) && InStep(t.nodes[j], u, s.reigns[u].log)
  {
    var n := s.nodes[j];
    assert NodeFits(s, j, n);
    AgreedIs(s.reigns, n.log, u, 0);
    OneStep(s, Reconcile(j), false);
    t := Do(s, Reconcile(j));
    assert n.log[..|n.log|] == n.log;
  }

  ghost predicate Reported(s: State, j: NodeId, u: nat, length: nat) {
    Report(u, j, length, u) in s.reports
  }

  lemma ReportOne(s: State, j: NodeId, u: nat) returns (t: State)
    requires j in s.nodes && u in s.reigns && LastTerm(s.reigns[u].log) == u && s.reigns[u].log != []
    requires InStep(s.nodes[j], u, s.reigns[u].log)
    ensures Leads(s, t, true) && Only(s, t, {j}) && t.nodes[j] == s.nodes[j]
    ensures Reported(t, j, u, |s.reigns[u].log|)
  {
    var l := s.reigns[u].log;
    OneStep(s, Send(j, |l|), true);
    t := Do(s, Send(j, |l|));
  }

  lemma FollowOne(s: State, j: NodeId, u: nat) returns (t: State)
    requires Safe(s) && u in s.reigns && j in s.nodes && Waits(s.nodes[j], u)
    requires s.reigns[u].log != [] && LastTerm(s.reigns[u].log) == u
    ensures Leads(s, t, false) && Only(s, t, {j})
    ensures InStep(t.nodes[j], u, s.reigns[u].log) && Reported(t, j, u, |s.reigns[u].log|)
  {
    var a := JudgeOne(s, j, u);
    var b := CatchUp(a, j, u);
    Quieter(a, b);
    LeadsOn(s, a, b, false);
    OnlyOn(s, a, b, {j}, {j});
    LeadsToSafe(s, b, false);
    var c := ConfirmOne(b, j, u);
    LeadsOn(s, b, c, false);
    OnlyOn(s, b, c, {j}, {j});
    t := ReportOne(c, j, u);
    Quieter(c, t);
    LeadsOn(s, c, t, false);
    OnlyOn(s, c, t, {j}, {j});
  }

  lemma {:induction false} FollowAll(s: State, todo: set<NodeId>, u: nat) returns (t: State)
    requires Safe(s) && u in s.reigns && todo <= s.nodes.Keys && forall j | j in todo :: Waits(s.nodes[j], u)
    requires s.reigns[u].log != [] && LastTerm(s.reigns[u].log) == u
    ensures Leads(s, t, false) && Only(s, t, todo)
    ensures forall j | j in todo ::
              InStep(t.nodes[j], u, s.reigns[u].log) && Reported(t, j, u, |s.reigns[u].log|)
    decreases |todo|
  {
    if todo == {} {
      LeadsNowhere(s, false);
      t := s;
    } else {
      var j :| j in todo;
      var m := FollowAll(s, todo - {j}, u);
      LeadsToSafe(s, m, false);
      t := FollowOne(m, j, u);
      LeadsOn(s, m, t, false);
      OnlyOn(s, m, t, todo - {j}, {j});
      assert todo - {j} + {j} == todo;
    }
  }

  // ------------------------------------------------------------- everything is committed

  // Every other node is in step with leader k and has reported it.
  ghost predicate AllInStep(s: State, k: NodeId, u: nat) {
    && Presides(s, k, u)
    && forall j | j in s.nodes && j != k ::
         InStep(s.nodes[j], u, s.reigns[u].log) && Reported(s, j, u, |s.reigns[u].log|)
  }

  lemma CommitAll(s: State, k: NodeId, u: nat) returns (t: State)
    requires AllInStep(s, k, u)
    ensures var l := s.reigns[u].log;
            && Leads(s, t, true) && Only(s, t, {k}) && t.nodes[k] == s.nodes[k].(commit := |l|)
            && Gossip(u, |l|, s.nodes.Keys) in t.gossip
  {
    var l, all := s.reigns[u].log, s.nodes.Keys;
    AllAreMajority(all);
    forall j | j in all ensures Counts(s, k, l, u, |l|, j) {
      if j != k { assert Reported(s, j, u, |l|) && TermBelow(l, |l|) == u; }
    }
    OneStep(s, Commit(k, |l|, all), true);
    t := Do(s, Commit(k, |l|, all));
  }

  lemma {:induction false} IntakeAll(s: State, todo: set<NodeId>, u: nat, g: Gossip) returns (t: State)
    requires todo <= s.nodes.Keys && u in s.reigns && g in s.gossip && g.term == u && g.commit == |s.reigns[u].log|
    requires forall j | j in todo :: InStep(s.nodes[j], u, s.reigns[u].log)
    ensures Leads(s, t, true) && Only(s, t, todo)
    ensures forall j | j in todo :: t.nodes[j] == s.nodes[j].(commit := g.commit)
    decreases |todo|
  {
    if todo == {} {
      LeadsNowhere(s, true);
      t := s;
    } else {
      var j :| j in todo;
      var m := IntakeAll(s, todo - {j}, u, g);
      OneMore(s, m, Intake(j, g), true);
      t := Do(m, Intake(j, g));
    }
  }

  // All nodes hold the leader's whole log, know it committed, and are ready for more.
  ghost predicate Settled(s: State, k: NodeId, u: nat) {
    && k in s.nodes && u in s.reigns && s.reigns[u].leader == k && s.reigns[u].base < |s.reigns[u].log|
    && LastTerm(s.reigns[u].log) == u && Gossip(u, |s.reigns[u].log|, s.nodes.Keys) in s.gossip
    && (forall j | j in s.nodes ::
          s.nodes[j].term == u && s.nodes[j].log == s.reigns[u].log && s.nodes[j].commit == |s.reigns[u].log|)
    && s.nodes[k].role == Leader && s.nodes[k].stream == s.nodes[k].mapTerm == u
    && forall j | j in s.nodes && j != k :: InStep(s.nodes[j], u, s.reigns[u].log)
  }

  lemma Settle(s: State, k: NodeId, u: nat) returns (t: State)
    requires AllInStep(s, k, u)
    ensures Leads(s, t, true) && t.nodes.Keys == s.nodes.Keys && t.reigns == s.reigns && Settled(t, k, u)
  {
    var m := CommitAll(s, k, u);
    var g := Gossip(u, |s.reigns[u].log|, s.nodes.Keys);
    t := IntakeAll(m, s.nodes.Keys - {k}, u, g);
    LeadsOn(s, m, t, true);
    SettledNow(s, m, t, k, u, g);
  }

  lemma SettledNow(s: State, m: State, t: State, k: NodeId, u: nat, g: Gossip)
    requires AllInStep(s, k, u) && g == Gossip(u, |s.reigns[u].log|, s.nodes.Keys)
    requires Only(s, m, {k}) && m.nodes[k] == s.nodes[k].(commit := g.commit) && g in m.gossip
    requires Only(m, t, s.nodes.Keys - {k})
    requires forall j | j in s.nodes && j != k :: t.nodes[j] == m.nodes[j].(commit := g.commit)
    ensures Settled(t, k, u)
  {
    forall j | j in s.nodes && j != k ensures InStep(t.nodes[j], u, t.reigns[u].log) {
      assert InStep(s.nodes[j], u, s.reigns[u].log) && m.nodes[j] == s.nodes[j];
    }
  }

  // MAIN RESULT.  No state of any run is stuck: some continuation elects a leader of a new term under which every
  // node holds, and knows to be committed, one and the same log that ends in any payload asked for.
  lemma CanAlwaysCommit(s0: State, steps: seq<Step>, s: State, payload: int)
    returns (more: seq<Step>, t: State, k: NodeId, u: nat)
    requires Reaches(s0, steps, s) && s.nodes != map[]
    ensures Reaches(s0, steps + more, t) && Settled(t, k, u) && t.nodes.Keys == s.nodes.Keys
    ensures EndsIn(t.reigns[u].log, Frame(u, payload)) && forall v | v in s.reigns :: v < u
  {
    t, k, u := CanSettle(s0, steps, s, payload);
    more := StepsOf(s, t);
    RunGoesOn(s0, steps, s, more, t);
  }

  predicate EndsIn(l: Log, f: Frame) {
    l != [] && l[|l| - 1] == f
  }

  lemma CanSettle(s0: State, steps: seq<Step>, s: State, payload: int) returns (t: State, k: NodeId, u: nat)
    requires Reaches(s0, steps, s) && s.nodes != map[]
    ensures Leads(s, t, false) && Settled(t, k, u) && t.nodes.Keys == s.nodes.Keys
    ensures EndsIn(t.reigns[u].log, Frame(u, payload)) && forall v | v in s.reigns :: v < u
  {
    var a;
    a, k, u := Elect(s, payload);
    t := Gather(s0, steps, s, a, k, u);
    assert t.reigns[u] == a.reigns[u];
  }

  lemma Gather(s0: State, steps: seq<Step>, s: State, a: State, k: NodeId, u: nat) returns (t: State)
    requires Reaches(s0, steps, s) && Leads(s, a, false) && Presides(a, k, u)
    requires forall j | j in a.nodes && j != k :: Waits(a.nodes[j], u)
    ensures Leads(s, t, false) && Settled(t, k, u) && t.nodes.Keys == a.nodes.Keys && t.reigns == a.reigns
  {
    RunIsSafe(s0, steps, s);
    LeadsToSafe(s, a, false);
    var b := FollowAll(a, a.nodes.Keys - {k}, u);
    t := Settle(b, k, u);
    Quieter(b, t);
    LeadsOn(s, a, b, false);
    LeadsOn(s, b, t, false);
  }

  lemma StepsOf(s: State, t: State) returns (steps: seq<Step>)
    requires Leads(s, t, false)
    ensures Path(s, steps, t)
  {
    steps :| Path(s, steps, t);
  }

  lemma {:induction false} RunGoesOn(s0: State, steps: seq<Step>, s: State, more: seq<Step>, t: State)
    requires Reaches(s0, steps, s) && Path(s, more, t)
    ensures Reaches(s0, steps + more, t)
    decreases |more|
  {
    if more == [] {
      assert steps + more == steps;
    } else {
      RunOneMore(s0, steps, s, more[0]);
      RunGoesOn(s0, steps + [more[0]], Do(s, more[0]), more[1..], t);
      MoveOver(steps, more);
    }
  }

  lemma MoveOver(steps: seq<Step>, more: seq<Step>)
    requires more != []
    ensures steps + [more[0]] + more[1..] == steps + more
  {
  }

  lemma RunOneMore(s0: State, steps: seq<Step>, s: State, step: Step)
    requires Reaches(s0, steps, s) && Can(s, step)
    ensures Reaches(s0, steps + [step], Do(s, step))
  {
    assert (steps + [step])[..|steps|] == steps;
  }

  // ------------------------------------------------------------- and it goes on

  // In step but for the last frame.
  predicate OneBehind(n: Node, u: nat, l: Log) {
    && l != [] && InStream(n, u, l) && n.log == l[..|l| - 1]
    && n.mapTerm == u && !n.unconfirmed && n.validated == |n.log|
  }

  // A frame of the term it is in is confirmed as it is taken.
  lemma TakeOne(s: State, j: NodeId, u: nat) returns (t: State)
    requires j in s.nodes && u in s.reigns && LastTerm(s.reigns[u].log) == u
    requires OneBehind(s.nodes[j], u, s.reigns[u].log)
    ensures Leads(s, t, true) && Only(s, t, {j})
    ensures InStep(t.nodes[j], u, s.reigns[u].log) && Reported(t, j, u, |s.reigns[u].log|)
  {
    var n, l := s.nodes[j], s.reigns[u].log;
    OneStep(s, Accept(j), true);
    var m := Do(s, Accept(j));
    assert l == l[..|l| - 1] + [l[|l| - 1]];
    t := ReportOne(m, j, u);
    LeadsOn(s, m, t, true);
    OnlyOn(s, m, t, {j}, {j});
  }

  lemma {:induction false} TakeAll(s: State, todo: set<NodeId>, u: nat) returns (t: State)
    requires todo <= s.nodes.Keys && u in s.reigns && LastTerm(s.reigns[u].log) == u
    requires forall j | j in todo :: OneBehind(s.nodes[j], u, s.reigns[u].log)
    ensures Leads(s, t, true) && Only(s, t, todo)
    ensures forall j | j in todo ::
              InStep(t.nodes[j], u, s.reigns[u].log) && Reported(t, j, u, |s.reigns[u].log|)
    decreases |todo|
  {
    if todo == {} {
      LeadsNowhere(s, true);
      t := s;
    } else {
      var j :| j in todo;
      var m := TakeAll(s, todo - {j}, u);
      t := TakeOne(m, j, u);
      LeadsOn(s, m, t, true);
      OnlyOn(s, m, t, todo - {j}, {j});
      assert todo - {j} + {j} == todo;
    }
  }

  lemma AppendedTo(s: State, k: NodeId, u: nat, payload: int) returns (a: State)
    requires Settled(s, k, u)
    ensures Leads(s, a, true) && a.nodes.Keys == s.nodes.Keys && Presides(a, k, u)
    ensures a.reigns[u].log == s.reigns[u].log + [Frame(u, payload)]
    ensures forall j | j in a.nodes && j != k :: OneBehind(a.nodes[j], u, a.reigns[u].log)
  {
    a := AppendOne(s, k, payload);
    forall j | j in a.nodes && j != k ensures OneBehind(a.nodes[j], u, a.reigns[u].log) {
      assert a.nodes[j] == s.nodes[j] && InStep(s.nodes[j], u, s.reigns[u].log);
    }
  }

  // MAIN RESULT.  A settled cluster commits one payload after the other on every node, with no election, no
  // reconcile and no restart.
  lemma {:induction false} StreamingCommits(s: State, k: NodeId, u: nat, payloads: seq<int>) returns (t: State)
    requires Settled(s, k, u)
    ensures Leads(s, t, true) && Settled(t, k, u) && t.nodes.Keys == s.nodes.Keys
    ensures t.reigns[u].log == s.reigns[u].log + Frames(u, payloads)
    decreases |payloads|
  {
    if payloads == [] {
      LeadsNowhere(s, true);
      t := s;
      assert s.reigns[u].log + [] == s.reigns[u].log;
    } else {
      var m := StreamOne(s, k, u, payloads[0]);
      t := StreamingCommits(m, k, u, payloads[1..]);
      LeadsOn(s, m, t, true);
      Regroup(s.reigns[u].log, Frame(u, payloads[0]), Frames(u, payloads[1..]));
    }
  }

  lemma Regroup(a: Log, f: Frame, b: Log)
    ensures a + [f] + b == a + ([f] + b)
  {
  }

  function Frames(u: nat, payloads: seq<int>): Log {
    if payloads == [] then [] else [Frame(u, payloads[0])] + Frames(u, payloads[1..])
  }

  lemma StreamOne(s: State, k: NodeId, u: nat, payload: int) returns (t: State)
    requires Settled(s, k, u)
    ensures Leads(s, t, true) && Settled(t, k, u) && t.nodes.Keys == s.nodes.Keys
    ensures t.reigns[u].log == s.reigns[u].log + [Frame(u, payload)]
  {
    var a := AppendedTo(s, k, u, payload);
    var b := TakeAll(a, a.nodes.Keys - {k}, u);
    LeadsOn(s, a, b, true);
    t := Settle(b, k, u);
    LeadsOn(s, b, t, true);
    assert t.reigns[u] == a.reigns[u];
  }

  lemma NodeResumes(n: Node, u: nat, l: Log)
    requires InStep(n, u, l) && n.voteTerm <= u
    ensures var m := Restarting(n);
            && m.role == Follower && m.term == u && !m.awaiting && !m.truncating && m.validated == |l| && m.commit == 0
            && InStep(m.(commit := |l|), u, l)
  {
  }

  // MAIN RESULT.  A follower of a settled cluster that restarts is settled again as soon as it hears the commit
  // position: it keeps its log, its term and its open data plane, and needs no reconcile.
  lemma RestartResumes(s: State, k: NodeId, u: nat, j: NodeId) returns (t: State)
    requires Safe(s) && Settled(s, k, u) && j in s.nodes && j != k
    ensures var m, g := Do(s, Restart(j)), Gossip(u, |s.reigns[u].log|, s.nodes.Keys);
            Can(m, Intake(j, g)) && t == Do(m, Intake(j, g)) && Settled(t, k, u) && t.reigns == s.reigns
  {
    var m, g := Do(s, Restart(j)), Gossip(u, |s.reigns[u].log|, s.nodes.Keys);
    assert s.nodes[j].voteTerm <= u by { assert NodeFits(s, j, s.nodes[j]); }
    NodeResumes(s.nodes[j], u, s.reigns[u].log);
    t := Do(m, Intake(j, g));
    assert t.nodes.Keys == s.nodes.Keys;
    forall i | i in t.nodes && i != k ensures InStep(t.nodes[i], u, t.reigns[u].log) {
      assert InStep(s.nodes[i], u, s.reigns[u].log);
    }
  }

  // A candidate whose term has a leader may be judged by it and then take its gossip, without first stepping down.
  lemma CandidateTakesGossip(s: State, j: NodeId, u: nat, g: Gossip)
    requires Safe(s) && j in s.nodes && u in s.reigns && g in s.gossip && g.term == u
    requires var n := s.nodes[j]; n.role == Candidate && n.term == u && !n.truncating && n.log == s.reigns[u].log
    ensures var m := Do(s, Reconcile(j));
            Can(m, Intake(j, g)) && Do(m, Intake(j, g)).nodes[j].commit >= Min(g.commit, |s.reigns[u].log|)
  {
    assert NodeFits(s, j, s.nodes[j]);
    AgreedIs(s.reigns, s.nodes[j].log, u, 0);
  }
}
