/**
A run in which a node that lost its own election takes the winner's commit position before
it has reconciled, and applies a frame the winner's history does not have.
 */
module ProtocolGap {
  import opened ClusterConfig
  import opened Protocol
  import opened ProtocolFollowers

  // ------------------------------------------------------------- three nodes

  function Three(a: Node, b: Node, c: Node): map<NodeId, Node> {
    map[0 := a, 1 := b, 2 := c]
  }

  lemma Put0(a: Node, b: Node, c: Node, x: Node)
    ensures var m := Three(a, b, c); m[0 := x] == Three(x, b, c) && m[0] == a && m.Keys == {0, 1, 2}
  {
  }

  lemma Put1(a: Node, b: Node, c: Node, x: Node)
    ensures var m := Three(a, b, c); m[1 := x] == Three(a, x, c) && m[1] == b && m.Keys == {0, 1, 2}
  {
  }

  lemma Put2(a: Node, b: Node, c: Node, x: Node)
    ensures var m := Three(a, b, c); m[2 := x] == Three(a, b, x) && m[2] == c && m.Keys == {0, 1, 2}
  {
  }

  lemma Majority(i: NodeId, j: NodeId)
    requires i < 3 && j < 3 && i != j
    ensures IsMajority({i, j}, {0, 1, 2})
  {
    assert |{i, j}| == 2 && |{0, 1, 2}| == 3;
  }

  // ------------------------------------------------------------- longer runs

  // The run so far reaches s, and one more step takes it to q.
  lemma Extend(s0: State, steps: seq<Step>, s: State, step: Step, q: State) returns (run: seq<Step>)
    requires Reaches(s0, steps, s) && Can(s, step) && q == Do(s, step)
    ensures Reaches(s0, run, q)
  {
    run := steps + [step];
    assert run[..|steps|] == steps;
  }

  lemma ExtendWin(s0: State, steps: seq<Step>, s: State, i: NodeId, n: Node, reign: Reign, q: State)
    returns (run: seq<Step>)
    requires Reaches(s0, steps, s) && i in s.nodes && s.nodes[i] == n && n.role == Candidate
    requires reign.leader == i && reign.base == |n.log| && reign.log == n.log + [Frame(n.term, NEW_TERM)]
    requires IsMajority(reign.voters, s.nodes.Keys) && forall j | j in reign.voters :: Grant(n.term, j, i) in s.grants
    requires q == s.(nodes := s.nodes[i := Leading(n)], reigns := s.reigns[n.term := reign])
    ensures Reaches(s0, run, q)
  {
    run := Extend(s0, steps, s, Win(i, reign.voters), q);
  }

  lemma ExtendStand(s0: State, steps: seq<Step>, s: State, i: NodeId, n: Node) returns (run: seq<Step>)
    requires Reaches(s0, steps, s) && i in s.nodes && s.nodes[i] == n && n.role != Leader && !n.truncating
    ensures var m := Standing(i, n);
            Reaches(s0, run, s.(nodes := s.nodes[i := m], requests := s.requests + {m.bid},
                                grants := s.grants + {Grant(m.term, i, i)}))
  {
    assert s.reports + {} == s.reports && s.gossip + {} == s.gossip;
    run := Extend(s0, steps, s, Stand(i), Do(s, Stand(i)));
  }

  lemma ExtendVote(s0: State, steps: seq<Step>, s: State, i: NodeId, n: Node, r: Request) returns (run: seq<Step>)
    requires Reaches(s0, steps, s) && i in s.nodes && s.nodes[i] == n
    requires r in s.requests && r.from != i && r.term >= n.term && r.term > n.voteTerm && Fresh(r, n)
    ensures Reaches(s0, run, s.(nodes := s.nodes[i := Voting(n, r)], grants := s.grants + {Grant(r.term, i, r.from)}))
  {
    assert s.requests + {} == s.requests && s.reports + {} == s.reports && s.gossip + {} == s.gossip;
    run := Extend(s0, steps, s, Vote(i, r), Do(s, Vote(i, r)));
  }

  lemma ExtendSend(s0: State, steps: seq<Step>, s: State, i: NodeId, n: Node, length: nat) returns (run: seq<Step>)
    requires Reaches(s0, steps, s) && i in s.nodes && s.nodes[i] == n && n.role != Leader && length <= |n.log|
    ensures Reaches(s0, run, s.(reports := s.reports + {Report(n.stream, i, length, TermBelow(n.log, length))}))
  {
    assert s.requests + {} == s.requests && s.grants + {} == s.grants && s.gossip + {} == s.gossip;
    assert s.nodes[i := n] == s.nodes;
    run := Extend(s0, steps, s, Send(i, length), Do(s, Send(i, length)));
  }

  lemma ExtendCommit(s0: State, steps: seq<Step>, s: State, i: NodeId, n: Node, reign: Reign, g: Gossip, q: State)
    returns (run: seq<Step>)
    requires Reaches(s0, steps, s) && i in s.nodes && s.nodes[i] == n && n.role == Leader && n.term == g.term
    requires g.term in s.reigns && s.reigns[g.term] == reign && n.commit < g.commit && reign.base < g.commit <= |n.log|
    requires IsMajority(g.holders, s.nodes.Keys)
    requires forall j | j in g.holders :: Counts(s, i, reign.log, g.term, g.commit, j)
    requires q == s.(nodes := s.nodes[i := n.(commit := g.commit)],
                     reports := s.reports + {Report(g.term, i, |n.log|, g.term)}, gossip := s.gossip + {g})
    ensures Reaches(s0, run, q)
  {
    assert s.requests + {} == s.requests && s.grants + {} == s.grants;
    run := Extend(s0, steps, s, Commit(i, g.commit, g.holders), q);
  }

  // ------------------------------------------------------------- the scenes

  const IDLE: Request := Request(0, 0, 0, 0)
  const BID: Request := Request(1, 0, 0, 0)       // node 0 for term 1
  const LOST: Request := Request(2, 0, 1, 1)      // node 0 for term 2
  const WON: Request := Request(2, 1, 0, 0)       // node 1 for term 2
  const ONE: Frame := Frame(1, NEW_TERM)
  const TWO: Frame := Frame(2, NEW_TERM)
  const REIGN_ONE: Reign := Reign(0, {0, 1}, 0, [ONE])
  const REIGN_TWO: Reign := Reign(1, {1, 2}, 0, [TWO])
  const HEARD: Gossip := Gossip(2, 1, {1, 2})

  // The nodes as the run changes them.
  const NEW: Node := FirstNode()
  const A1: Node := Node(1, 1, 0, Candidate, BID, [], 0, 0, true, false, false, false, 0, 0, true, 0)
  const A2: Node := Node(1, 1, 0, Leader, BID, [], 1, 1, false, false, false, false, 0, 1, false, 0)
  const A3: Node := Node(1, 1, 0, Leader, BID, [ONE], 1, 1, false, false, false, false, 1, 1, false, 0)
  const A4: Node := Node(1, 1, 0, Follower, BID, [ONE], 1, 1, true, false, false, false, 1, 1, false, 0)
  const A5: Node := Node(2, 2, 0, Candidate, LOST, [ONE], 1, 1, true, false, false, false, 1, 1, true, 0)
  const A6: Node := Node(2, 2, 0, Follower, LOST, [ONE], 1, 2, false, false, false, false, 1, 1, true, 0)
  const A7: Node := Node(2, 2, 0, Follower, LOST, [ONE], 1, 2, false, false, false, false, 1, 1, true, 1)
  const B1: Node := Node(1, 1, 0, Follower, IDLE, [], 0, 1, false, true, false, false, 0, 0, false, 0)
  const B2: Node := Node(2, 2, 1, Candidate, WON, [], 0, 1, false, true, false, false, 0, 0, true, 0)
  const B3: Node := Node(2, 2, 1, Leader, WON, [], 2, 2, false, false, false, false, 0, 2, false, 0)
  const B4: Node := Node(2, 2, 1, Leader, WON, [TWO], 2, 2, false, false, false, false, 1, 2, false, 0)
  const B5: Node := Node(2, 2, 1, Leader, WON, [TWO], 2, 2, false, false, false, false, 1, 2, false, 1)
  const C1: Node := Node(2, 2, 1, Follower, IDLE, [], 0, 2, false, true, false, false, 0, 0, false, 0)
  const C2: Node := Node(2, 2, 1, Follower, IDLE, [], 0, 2, true, false, false, false, 0, 2, false, 0)
  const C3: Node := Node(2, 2, 1, Follower, IDLE, [TWO], 2, 2, true, false, true, false, 0, 2, false, 0)

  // The reigns and the messages as they accumulate.
  const R1: Reigns := map[1 := REIGN_ONE]
  const R2: Reigns := R1[2 := REIGN_TWO]
  const Q1: set<Request> := {BID}
  const Q2: set<Request> := Q1 + {LOST}
  const Q3: set<Request> := Q2 + {WON}
  const G1: set<Grant> := {Grant(1, 0, 0)}
  const G2: set<Grant> := G1 + {Grant(1, 1, 0)}
  const G3: set<Grant> := G2 + {Grant(2, 0, 0)}
  const G4: set<Grant> := G3 + {Grant(2, 1, 1)}
  const G5: set<Grant> := G4 + {Grant(2, 2, 1)}
  const P1: set<Report> := {Report(2, 2, 1, 2)}
  const P2: set<Report> := P1 + {Report(2, 1, 1, 2)}
  const O1: set<Gossip> := {HEARD}

  function Scene0(): State {
    State(Three(NEW, NEW, NEW), map[], {}, {}, {}, {})
  }

  // Node 0 leads term 1 with the vote of node 1, writes a frame and restarts holding it.
  function Scene1(): State {
    State(Three(A1, NEW, NEW), map[], Q1, G1, {}, {})
  }

  function Scene2(): State {
    State(Three(A1, B1, NEW), map[], Q1, G2, {}, {})
  }

  function Scene3(): State {
    State(Three(A2, B1, NEW), R1, Q1, G2, {}, {})
  }

  function Scene4(): State {
    State(Three(A3, B1, NEW), R1, Q1, G2, {}, {})
  }

  function Scene5(): State {
    State(Three(A4, B1, NEW), R1, Q1, G2, {}, {})
  }

  // Nodes 0 and 1 both stand for term 2, and node 2 votes for node 1.
  function Scene6(): State {
    State(Three(A5, B1, NEW), R1, Q2, G3, {}, {})
  }

  function Scene7(): State {
    State(Three(A5, B2, NEW), R1, Q3, G4, {}, {})
  }

  function Scene8(): State {
    State(Three(A5, B2, C1), R1, Q3, G5, {}, {})
  }

  // Node 1 leads term 2, replicates its frame to node 2 and commits it.
  function Scene9(): State {
    State(Three(A5, B3, C1), R2, Q3, G5, {}, {})
  }

  function Scene10(): State {
    State(Three(A5, B4, C1), R2, Q3, G5, {}, {})
  }

  function Scene11(): State {
    State(Three(A5, B4, C2), R2, Q3, G5, {}, {})
  }

  function Scene12(): State {
    State(Three(A5, B4, C3), R2, Q3, G5, {}, {})
  }

  function Scene13(): State {
    State(Three(A5, B4, C3), R2, Q3, G5, P1, {})
  }

  function Scene14(): State {
    State(Three(A5, B5, C3), R2, Q3, G5, P2, O1)
  }

  // Node 0 follows the winner and takes its commit position.
  function Scene15(): State {
    State(Three(A6, B5, C3), R2, Q3, G5, P2, O1)
  }

  function Scene16(): State {
    State(Three(A7, B5, C3), R2, Q3, G5, P2, O1)
  }

  // ------------------------------------------------------------- the run

  lemma Step1(before: seq<Step>) returns (run: seq<Step>)
    requires Reaches(Scene0(), before, Scene0())
    ensures Reaches(Scene0(), run, Scene1())
  {
    Put0(NEW, NEW, NEW, A1);
    run := ExtendStand(Scene0(), before, Scene0(), 0, NEW);
  }

  lemma Step2(before: seq<Step>) returns (run: seq<Step>)
    requires Reaches(Scene0(), before, Scene1())
    ensures Reaches(Scene0(), run, Scene2())
  {
    Put1(A1, NEW, NEW, B1);
    run := ExtendVote(Scene0(), before, Scene1(), 1, NEW, BID);
  }

  lemma Elected1()
    ensures IsMajority(REIGN_ONE.voters, Scene2().nodes.Keys)
    ensures forall j | j in REIGN_ONE.voters :: Grant(1, j, 0) in G2
  {
    Put0(A1, B1, NEW, A2);
    Majority(0, 1);
    assert Grant(1, 0, 0) in G2 && Grant(1, 1, 0) in G2;
  }

  lemma Opened1()
    ensures REIGN_ONE.log == A1.log + [Frame(1, NEW_TERM)]
    ensures Scene3() ==
            Scene2().(nodes := Scene2().nodes[0 := Leading(A1)], reigns := Scene2().reigns[1 := REIGN_ONE])
  {
    assert [] + [ONE] == [ONE];
    Put0(A1, B1, NEW, A2);
  }

  lemma Step3(before: seq<Step>) returns (run: seq<Step>)
    requires Reaches(Scene0(), before, Scene2())
    ensures Reaches(Scene0(), run, Scene3())
  {
    Elected1();
    Opened1();
    run := ExtendWin(Scene0(), before, Scene2(), 0, A1, REIGN_ONE, Scene3());
  }

  lemma Step4(before: seq<Step>) returns (run: seq<Step>)
    requires Reaches(Scene0(), before, Scene3())
    ensures Reaches(Scene0(), run, Scene4())
  {
    assert [ONE][..1] == [ONE];
    Put0(A2, B1, NEW, A3);
    run := Extend(Scene0(), before, Scene3(), Fsync(0, 1), Scene4());
  }

  lemma Step5(before: seq<Step>) returns (run: seq<Step>)
    requires Reaches(Scene0(), before, Scene4())
    ensures Reaches(Scene0(), run, Scene5())
  {
    Put0(A3, B1, NEW, A4);
    run := Extend(Scene0(), before, Scene4(), Restart(0), Scene5());
  }

  lemma Step6(before: seq<Step>) returns (run: seq<Step>)
    requires Reaches(Scene0(), before, Scene5())
    ensures Reaches(Scene0(), run, Scene6())
  {
    Put0(A4, B1, NEW, A5);
    run := ExtendStand(Scene0(), before, Scene5(), 0, A4);
  }

  lemma Step7(before: seq<Step>) returns (run: seq<Step>)
    requires Reaches(Scene0(), before, Scene6())
    ensures Reaches(Scene0(), run, Scene7())
  {
    Put1(A5, B1, NEW, B2);
    run := ExtendStand(Scene0(), before, Scene6(), 1, B1);
  }

  lemma Step8(before: seq<Step>) returns (run: seq<Step>)
    requires Reaches(Scene0(), before, Scene7())
    ensures Reaches(Scene0(), run, Scene8())
  {
    Put2(A5, B2, NEW, C1);
    run := ExtendVote(Scene0(), before, Scene7(), 2, NEW, WON);
  }

  lemma Elected2()
    ensures IsMajority(REIGN_TWO.voters, Scene8().nodes.Keys)
    ensures forall j | j in REIGN_TWO.voters :: Grant(2, j, 1) in G5
  {
    Put1(A5, B2, C1, B3);
    Majority(1, 2);
    assert Grant(2, 1, 1) in G5 && Grant(2, 2, 1) in G5;
  }

  lemma Opened2()
    ensures REIGN_TWO.log == B2.log + [Frame(2, NEW_TERM)]
    ensures Scene9() ==
            Scene8().(nodes := Scene8().nodes[1 := Leading(B2)], reigns := Scene8().reigns[2 := REIGN_TWO])
  {
    assert [] + [TWO] == [TWO];
    Put1(A5, B2, C1, B3);
  }

  lemma Step9(before: seq<Step>) returns (run: seq<Step>)
    requires Reaches(Scene0(), before, Scene8())
    ensures Reaches(Scene0(), run, Scene9())
  {
    Elected2();
    Opened2();
    run := ExtendWin(Scene0(), before, Scene8(), 1, B2, REIGN_TWO, Scene9());
  }

  lemma Step10(before: seq<Step>) returns (run: seq<Step>)
    requires Reaches(Scene0(), before, Scene9())
    ensures Reaches(Scene0(), run, Scene10())
  {
    assert [TWO][..1] == [TWO];
    Put1(A5, B3, C1, B4);
    run := Extend(Scene0(), before, Scene9(), Fsync(1, 1), Scene10());
  }

  lemma Step11(before: seq<Step>) returns (run: seq<Step>)
    requires Reaches(Scene0(), before, Scene10())
    ensures Reaches(Scene0(), run, Scene11())
  {
    Put2(A5, B4, C1, C2);
    run := Extend(Scene0(), before, Scene10(), Reconcile(2), Scene11());
  }

  lemma Step12(before: seq<Step>) returns (run: seq<Step>)
    requires Reaches(Scene0(), before, Scene11())
    ensures Reaches(Scene0(), run, Scene12())
  {
    assert [] + [TWO] == [TWO];
    Put2(A5, B4, C2, C3);
    run := Extend(Scene0(), before, Scene11(), Accept(2), Scene12());
  }

  lemma Step13(before: seq<Step>) returns (run: seq<Step>)
    requires Reaches(Scene0(), before, Scene12())
    ensures Reaches(Scene0(), run, Scene13())
  {
    Put2(A5, B4, C3, C3);
    run := ExtendSend(Scene0(), before, Scene12(), 2, C3, 1);
  }

  lemma Counted()
    ensures forall j | j in HEARD.holders :: Counts(Scene13(), 1, REIGN_TWO.log, 2, 1, j)
  {
    assert Report(2, 2, 1, 2) in P1;
  }

  lemma Held()
    ensures IsMajority(HEARD.holders, Scene13().nodes.Keys)
  {
    Put1(A5, B4, C3, B5);
    Majority(1, 2);
  }

  lemma Ranked()
    ensures Scene14() ==
            Scene13().(nodes := Scene13().nodes[1 := B4.(commit := 1)], reports := P2, gossip := O1)
  {
    Put1(A5, B4, C3, B5);
  }

  lemma Step14(before: seq<Step>) returns (run: seq<Step>)
    requires Reaches(Scene0(), before, Scene13())
    ensures Reaches(Scene0(), run, Scene14())
  {
    Counted();
    Held();
    Ranked();
    run := ExtendCommit(Scene0(), before, Scene13(), 1, B4, REIGN_TWO, HEARD, Scene14());
  }

  lemma Step15(before: seq<Step>) returns (run: seq<Step>)
    requires Reaches(Scene0(), before, Scene14())
    ensures Reaches(Scene0(), run, Scene15())
  {
    Put0(A5, B5, C3, A6);
    run := Extend(Scene0(), before, Scene14(), StepDown(0), Scene15());
  }

  lemma Step16(before: seq<Step>) returns (run: seq<Step>)
    requires Reaches(Scene0(), before, Scene15())
    ensures Reaches(Scene0(), run, Scene16())
  {
    Put0(A6, B5, C3, A7);
    run := Extend(Scene0(), before, Scene15(), Intake(0, HEARD), Scene16());
  }

  lemma Part1() returns (run: seq<Step>)
    ensures Initial(Scene0()) && Reaches(Scene0(), run, Scene5())
  {
    assert Reaches(Scene0(), [], Scene0());
    run := [];
    run := Step1(run);
    run := Step2(run);
    run := Step3(run);
    run := Step4(run);
    run := Step5(run);
  }

  lemma Part2(before: seq<Step>) returns (run: seq<Step>)
    requires Reaches(Scene0(), before, Scene5())
    ensures Reaches(Scene0(), run, Scene8())
  {
    run := before;
    run := Step6(run);
    run := Step7(run);
    run := Step8(run);
  }

  lemma Part3(before: seq<Step>) returns (run: seq<Step>)
    requires Reaches(Scene0(), before, Scene8())
    ensures Reaches(Scene0(), run, Scene12())
  {
    run := before;
    run := Step9(run);
    run := Step10(run);
    run := Step11(run);
    run := Step12(run);
  }

  lemma Part4(before: seq<Step>) returns (run: seq<Step>)
    requires Reaches(Scene0(), before, Scene12())
    ensures Reaches(Scene0(), run, Scene16())
  {
    run := before;
    run := Step13(run);
    run := Step14(run);
    run := Step15(run);
    run := Step16(run);
  }

  // The loser of term 2 has applied its own frame of term 1 where a quorum holds the winner's frame of
  // term 2: the guard the code has does not keep state-machine agreement in this run.  The one step that
  // is not vouched for is the last.
  lemma LoserAppliesStaleFrame() returns (run: seq<Step>)
    ensures Reaches(Scene0(), run, Scene16())
    ensures Scene16().nodes[0].commit == 1 && Scene16().nodes[1].commit == 1
    ensures Scene16().nodes[0].log == [ONE] && Scene16().nodes[1].log == [TWO] && ONE != TWO
    ensures !Judged(Scene15(), Intake(0, HEARD)) && !Vouched(Scene15(), Intake(0, HEARD))
  {
    LastScene();
    run := Part1();
    run := Part2(run);
    run := Part3(run);
    run := Part4(run);
  }

  lemma LastScene()
    ensures Scene16().nodes[0] == A7 && Scene16().nodes[1] == B5 && Scene15().nodes[0] == A6
  {
  }
}
