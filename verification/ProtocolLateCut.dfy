/**
A run in which a cut decided by one term's leader is acknowledged after a newer term was
adopted.  The acknowledgment releases commit gossip, and a node that never stood for
election applies a frame the newer leader's history does not have.
 */
module ProtocolLateCut {
  import opened ClusterConfig
  import opened Protocol
  import opened ProtocolFollowers
  import opened ProtocolGap

  // ------------------------------------------------------------- five nodes

  function Five(a: Node, b: Node, c: Node, d: Node, e: Node): map<NodeId, Node> {
    map[0 := a, 1 := b, 2 := c, 3 := d, 4 := e]
  }

  lemma Place0(a: Node, b: Node, c: Node, d: Node, e: Node, x: Node)
    ensures var m := Five(a, b, c, d, e); m[0 := x] == Five(x, b, c, d, e) && m[0] == a && m.Keys == {0, 1, 2, 3, 4}
  {
  }

  lemma Place1(a: Node, b: Node, c: Node, d: Node, e: Node, x: Node)
    ensures var m := Five(a, b, c, d, e); m[1 := x] == Five(a, x, c, d, e) && m[1] == b && m.Keys == {0, 1, 2, 3, 4}
  {
  }

  lemma Place2(a: Node, b: Node, c: Node, d: Node, e: Node, x: Node)
    ensures var m := Five(a, b, c, d, e); m[2 := x] == Five(a, b, x, d, e) && m[2] == c && m.Keys == {0, 1, 2, 3, 4}
  {
  }

  lemma Place3(a: Node, b: Node, c: Node, d: Node, e: Node, x: Node)
    ensures var m := Five(a, b, c, d, e); m[3 := x] == Five(a, b, c, x, e) && m[3] == d && m.Keys == {0, 1, 2, 3, 4}
  {
  }

  lemma Place4(a: Node, b: Node, c: Node, d: Node, e: Node, x: Node)
    ensures var m := Five(a, b, c, d, e); m[4 := x] == Five(a, b, c, d, x) && m[4] == e && m.Keys == {0, 1, 2, 3, 4}
  {
  }

  lemma Majority(i: NodeId, j: NodeId, k: NodeId)
    requires i < j < k < 5
    ensures IsMajority({i, j, k}, {0, 1, 2, 3, 4})
  {
    assert |{i, j, k}| == 3 && |{0, 1, 2, 3, 4}| == 5;
  }

  // ------------------------------------------------------------- the scenes

  const IDLE: Request := Request(0, 0, 0, 0)
  const BID_ONE: Request := Request(1, 0, 0, 0)     // node 0 for term 1
  const BID_TWO: Request := Request(2, 0, 1, 1)     // node 0 for term 2
  const BID_THREE: Request := Request(3, 2, 0, 0)   // node 2 for term 3
  const ONE: Frame := Frame(1, NEW_TERM)
  const TAIL: Frame := Frame(1, 7)
  const TWO: Frame := Frame(2, NEW_TERM)
  const THREE: Frame := Frame(3, NEW_TERM)
  const REIGN_ONE: Reign := Reign(0, {0, 3, 4}, 0, [ONE])
  const REIGN_ONE_MORE: Reign := Reign(0, {0, 3, 4}, 0, [ONE, TAIL])
  const REIGN_TWO: Reign := Reign(0, {0, 3, 4}, 1, [ONE, TWO])
  const REIGN_THREE: Reign := Reign(2, {2, 3, 4}, 0, [THREE])
  const HEARD: Gossip := Gossip(3, 1, {2, 3, 4})

  // The nodes as the run changes them.
  const NEW: Node := FirstNode()
  const A1: Node := Node(1, 1, 0, Candidate, BID_ONE, [], 0, 0, true, false, false, false, 0, 0, true, 0)
  const A2: Node := Node(1, 1, 0, Leader, BID_ONE, [], 1, 1, false, false, false, false, 0, 1, false, 0)
  const A3: Node := Node(1, 1, 0, Leader, BID_ONE, [ONE], 1, 1, false, false, false, false, 1, 1, false, 0)
  const A4: Node := Node(1, 1, 0, Follower, BID_ONE, [ONE], 1, 1, true, false, false, false, 1, 1, false, 0)
  const A5: Node := Node(2, 2, 0, Candidate, BID_TWO, [ONE], 1, 1, true, false, false, false, 1, 1, true, 0)
  const A6: Node := Node(2, 2, 0, Leader, BID_TWO, [ONE], 2, 2, false, false, false, false, 1, 2, false, 0)
  const B1: Node := Node(1, 0, 0, Follower, IDLE, [], 0, 1, false, true, false, false, 0, 0, false, 0)
  const B2: Node := Node(1, 0, 0, Follower, IDLE, [], 0, 1, true, false, false, false, 0, 1, false, 0)
  const B3: Node := Node(1, 0, 0, Follower, IDLE, [ONE], 1, 1, true, false, true, false, 0, 1, false, 0)
  const B4: Node := Node(1, 0, 0, Follower, IDLE, [ONE, TAIL], 1, 1, true, false, true, false, 0, 1, false, 0)
  const B5: Node := Node(2, 0, 0, Follower, IDLE, [ONE, TAIL], 1, 2, false, true, true, false, 0, 1, false, 0)
  const B6: Node := Node(2, 0, 0, Follower, IDLE, [ONE, TAIL], 1, 2, false, true, false, true, 1, 2, false, 0)
  const B7: Node := Node(3, 0, 0, Follower, IDLE, [ONE, TAIL], 1, 3, false, true, false, true, 1, 2, false, 0)
  const B8: Node := Node(3, 0, 0, Follower, IDLE, [ONE], 1, 3, false, false, false, false, 1, 2, true, 0)
  const B9: Node := Node(3, 0, 0, Follower, IDLE, [ONE], 1, 3, false, false, false, false, 1, 2, true, 1)
  const C1: Node := Node(2, 0, 0, Follower, IDLE, [], 0, 2, false, true, false, false, 0, 0, false, 0)
  const C2: Node := Node(3, 3, 2, Candidate, BID_THREE, [], 0, 2, false, true, false, false, 0, 0, true, 0)
  const C3: Node := Node(3, 3, 2, Leader, BID_THREE, [], 3, 3, false, false, false, false, 0, 3, false, 0)
  const C4: Node := Node(3, 3, 2, Leader, BID_THREE, [THREE], 3, 3, false, false, false, false, 1, 3, false, 0)
  const C5: Node := Node(3, 3, 2, Leader, BID_THREE, [THREE], 3, 3, false, false, false, false, 1, 3, false, 1)
  const D1: Node := Node(1, 1, 0, Follower, IDLE, [], 0, 1, false, true, false, false, 0, 0, false, 0)
  const D2: Node := Node(2, 2, 0, Follower, IDLE, [], 0, 2, false, true, false, false, 0, 0, false, 0)
  const D3: Node := Node(3, 3, 2, Follower, IDLE, [], 0, 3, false, true, false, false, 0, 0, false, 0)
  const D4: Node := Node(3, 3, 2, Follower, IDLE, [], 0, 3, true, false, false, false, 0, 3, false, 0)
  const D5: Node := Node(3, 3, 2, Follower, IDLE, [THREE], 3, 3, true, false, true, false, 0, 3, false, 0)
  const E1: Node := Node(1, 1, 0, Follower, IDLE, [], 0, 1, false, true, false, false, 0, 0, false, 0)
  const E2: Node := Node(2, 2, 0, Follower, IDLE, [], 0, 2, false, true, false, false, 0, 0, false, 0)
  const E3: Node := Node(3, 3, 2, Follower, IDLE, [], 0, 3, false, true, false, false, 0, 0, false, 0)
  const E4: Node := Node(3, 3, 2, Follower, IDLE, [], 0, 3, true, false, false, false, 0, 3, false, 0)
  const E5: Node := Node(3, 3, 2, Follower, IDLE, [THREE], 3, 3, true, false, true, false, 0, 3, false, 0)

  // The reigns and the messages as they accumulate.
  const R1: Reigns := map[1 := REIGN_ONE]
  const R2: Reigns := R1[1 := REIGN_ONE_MORE]
  const R3: Reigns := R2[2 := REIGN_TWO]
  const R4: Reigns := R3[3 := REIGN_THREE]
  const Q1: set<Request> := {BID_ONE}
  const Q2: set<Request> := Q1 + {BID_TWO}
  const Q3: set<Request> := Q2 + {BID_THREE}
  const G1: set<Grant> := {Grant(1, 0, 0)}
  const G2: set<Grant> := G1 + {Grant(1, 3, 0)}
  const G3: set<Grant> := G2 + {Grant(1, 4, 0)}
  const G4: set<Grant> := G3 + {Grant(2, 0, 0)}
  const G5: set<Grant> := G4 + {Grant(2, 3, 0)}
  const G6: set<Grant> := G5 + {Grant(2, 4, 0)}
  const G7: set<Grant> := G6 + {Grant(3, 2, 2)}
  const G8: set<Grant> := G7 + {Grant(3, 3, 2)}
  const G9: set<Grant> := G8 + {Grant(3, 4, 2)}
  const P1: set<Report> := {Report(3, 3, 1, 3)}
  const P2: set<Report> := P1 + {Report(3, 4, 1, 3)}
  const P3: set<Report> := P2 + {Report(3, 2, 1, 3)}
  const O1: set<Gossip> := {HEARD}

  function Scene0(): State {
    State(Five(NEW, NEW, NEW, NEW, NEW), map[], {}, {}, {}, {})
  }

  // Node 0 leads term 1 by the votes of nodes 3 and 4, appends two frames and persists the first.
  function Scene1(): State {
    State(Five(A1, NEW, NEW, NEW, NEW), map[], Q1, G1, {}, {})
  }

  function Scene2(): State {
    State(Five(A1, NEW, NEW, D1, NEW), map[], Q1, G2, {}, {})
  }

  function Scene3(): State {
    State(Five(A1, NEW, NEW, D1, E1), map[], Q1, G3, {}, {})
  }

  function Scene4(): State {
    State(Five(A2, NEW, NEW, D1, E1), R1, Q1, G3, {}, {})
  }

  function Scene5(): State {
    State(Five(A2, NEW, NEW, D1, E1), R2, Q1, G3, {}, {})
  }

  function Scene6(): State {
    State(Five(A3, NEW, NEW, D1, E1), R2, Q1, G3, {}, {})
  }

  // Node 1 follows it and holds both frames.
  function Scene7(): State {
    State(Five(A3, B1, NEW, D1, E1), R2, Q1, G3, {}, {})
  }

  function Scene8(): State {
    State(Five(A3, B2, NEW, D1, E1), R2, Q1, G3, {}, {})
  }

  function Scene9(): State {
    State(Five(A3, B3, NEW, D1, E1), R2, Q1, G3, {}, {})
  }

  function Scene10(): State {
    State(Five(A3, B4, NEW, D1, E1), R2, Q1, G3, {}, {})
  }

  // Node 0 restarts without the second frame and leads term 2.
  function Scene11(): State {
    State(Five(A4, B4, NEW, D1, E1), R2, Q1, G3, {}, {})
  }

  function Scene12(): State {
    State(Five(A5, B4, NEW, D1, E1), R2, Q2, G4, {}, {})
  }

  function Scene13(): State {
    State(Five(A5, B4, NEW, D2, E1), R2, Q2, G5, {}, {})
  }

  function Scene14(): State {
    State(Five(A5, B4, NEW, D2, E2), R2, Q2, G6, {}, {})
  }

  function Scene15(): State {
    State(Five(A6, B4, NEW, D2, E2), R3, Q2, G6, {}, {})
  }

  // Node 1 adopts term 2 and reconciles: its second frame is to be cut, and the cut is in flight.
  function Scene16(): State {
    State(Five(A6, B5, NEW, D2, E2), R3, Q2, G6, {}, {})
  }

  function Scene17(): State {
    State(Five(A6, B6, NEW, D2, E2), R3, Q2, G6, {}, {})
  }

  // Node 2, with an empty log, leads term 3 by the votes of nodes 3 and 4.
  function Scene18(): State {
    State(Five(A6, B6, C1, D2, E2), R3, Q2, G6, {}, {})
  }

  function Scene19(): State {
    State(Five(A6, B6, C2, D2, E2), R3, Q3, G7, {}, {})
  }

  function Scene20(): State {
    State(Five(A6, B6, C2, D3, E2), R3, Q3, G8, {}, {})
  }

  function Scene21(): State {
    State(Five(A6, B6, C2, D3, E3), R3, Q3, G9, {}, {})
  }

  function Scene22(): State {
    State(Five(A6, B6, C3, D3, E3), R4, Q3, G9, {}, {})
  }

  function Scene23(): State {
    State(Five(A6, B6, C4, D3, E3), R4, Q3, G9, {}, {})
  }

  // Nodes 3 and 4 follow it and report its frame, which it commits.
  function Scene24(): State {
    State(Five(A6, B6, C4, D4, E3), R4, Q3, G9, {}, {})
  }

  function Scene25(): State {
    State(Five(A6, B6, C4, D5, E3), R4, Q3, G9, {}, {})
  }

  function Scene26(): State {
    State(Five(A6, B6, C4, D5, E3), R4, Q3, G9, P1, {})
  }

  function Scene27(): State {
    State(Five(A6, B6, C4, D5, E4), R4, Q3, G9, P1, {})
  }

  function Scene28(): State {
    State(Five(A6, B6, C4, D5, E5), R4, Q3, G9, P1, {})
  }

  function Scene29(): State {
    State(Five(A6, B6, C4, D5, E5), R4, Q3, G9, P2, {})
  }

  function Scene30(): State {
    State(Five(A6, B6, C5, D5, E5), R4, Q3, G9, P3, O1)
  }

  // Node 1 adopts term 3 while its cut is in flight; the acknowledgment then releases its gossip.
  function Scene31(): State {
    State(Five(A6, B7, C5, D5, E5), R4, Q3, G9, P3, O1)
  }

  function Scene32(): State {
    State(Five(A6, B8, C5, D5, E5), R4, Q3, G9, P3, O1)
  }

  function Scene33(): State {
    State(Five(A6, B9, C5, D5, E5), R4, Q3, G9, P3, O1)
  }

  // ------------------------------------------------------------- the run

  lemma Step1(before: seq<Step>) returns (run: seq<Step>)
    requires Reaches(Scene0(), before, Scene0())
    ensures Reaches(Scene0(), run, Scene1())
  {
    Place0(NEW, NEW, NEW, NEW, NEW, A1);
    run := ExtendStand(Scene0(), before, Scene0(), 0, NEW);
  }

  lemma Step2(before: seq<Step>) returns (run: seq<Step>)
    requires Reaches(Scene0(), before, Scene1())
    ensures Reaches(Scene0(), run, Scene2())
  {
    Place3(A1, NEW, NEW, NEW, NEW, D1);
    run := ExtendVote(Scene0(), before, Scene1(), 3, NEW, BID_ONE);
  }

  lemma Step3(before: seq<Step>) returns (run: seq<Step>)
    requires Reaches(Scene0(), before, Scene2())
    ensures Reaches(Scene0(), run, Scene3())
  {
    Place4(A1, NEW, NEW, D1, NEW, E1);
    run := ExtendVote(Scene0(), before, Scene2(), 4, NEW, BID_ONE);
  }

  lemma Elected1()
    ensures IsMajority(REIGN_ONE.voters, Scene3().nodes.Keys)
    ensures forall j | j in REIGN_ONE.voters :: Grant(1, j, 0) in G3
  {
    Place0(A1, NEW, NEW, D1, E1, A2);
    Majority(0, 3, 4);
    assert Grant(1, 0, 0) in G3 && Grant(1, 3, 0) in G3 && Grant(1, 4, 0) in G3;
  }

  lemma Opened1()
    ensures REIGN_ONE.log == A1.log + [Frame(1, NEW_TERM)]
    ensures Scene4() ==
            Scene3().(nodes := Scene3().nodes[0 := Leading(A1)], reigns := Scene3().reigns[1 := REIGN_ONE])
  {
    assert [] + [ONE] == [ONE];
    Place0(A1, NEW, NEW, D1, E1, A2);
  }

  lemma Step4(before: seq<Step>) returns (run: seq<Step>)
    requires Reaches(Scene0(), before, Scene3())
    ensures Reaches(Scene0(), run, Scene4())
  {
    Elected1();
    Opened1();
    run := ExtendWin(Scene0(), before, Scene3(), 0, A1, REIGN_ONE, Scene4());
  }

  lemma Step5(before: seq<Step>) returns (run: seq<Step>)
    requires Reaches(Scene0(), before, Scene4())
    ensures Reaches(Scene0(), run, Scene5())
  {
    assert [ONE] + [TAIL] == [ONE, TAIL];
    Place0(A2, NEW, NEW, D1, E1, A2);
    run := Extend(Scene0(), before, Scene4(), Append(0, 7), Scene5());
  }

  lemma Step6(before: seq<Step>) returns (run: seq<Step>)
    requires Reaches(Scene0(), before, Scene5())
    ensures Reaches(Scene0(), run, Scene6())
  {
    assert [ONE, TAIL][..1] == [ONE];
    Place0(A2, NEW, NEW, D1, E1, A3);
    run := Extend(Scene0(), before, Scene5(), Fsync(0, 1), Scene6());
  }

  lemma Step7(before: seq<Step>) returns (run: seq<Step>)
    requires Reaches(Scene0(), before, Scene6())
    ensures Reaches(Scene0(), run, Scene7())
  {
    Place1(A3, NEW, NEW, D1, E1, B1);
    run := Extend(Scene0(), before, Scene6(), Adopt(1, 1), Scene7());
  }

  lemma Step8(before: seq<Step>) returns (run: seq<Step>)
    requires Reaches(Scene0(), before, Scene7())
    ensures Reaches(Scene0(), run, Scene8())
  {
    Place1(A3, B1, NEW, D1, E1, B2);
    run := Extend(Scene0(), before, Scene7(), Reconcile(1), Scene8());
  }

  lemma Step9(before: seq<Step>) returns (run: seq<Step>)
    requires Reaches(Scene0(), before, Scene8())
    ensures Reaches(Scene0(), run, Scene9())
  {
    assert [] + [ONE] == [ONE];
    Place1(A3, B2, NEW, D1, E1, B3);
    run := Extend(Scene0(), before, Scene8(), Accept(1), Scene9());
  }

  lemma Step10(before: seq<Step>) returns (run: seq<Step>)
    requires Reaches(Scene0(), before, Scene9())
    ensures Reaches(Scene0(), run, Scene10())
  {
    assert [ONE] + [TAIL] == [ONE, TAIL];
    Place1(A3, B3, NEW, D1, E1, B4);
    run := Extend(Scene0(), before, Scene9(), Accept(1), Scene10());
  }

  lemma Step11(before: seq<Step>) returns (run: seq<Step>)
    requires Reaches(Scene0(), before, Scene10())
    ensures Reaches(Scene0(), run, Scene11())
  {
    Place0(A3, B4, NEW, D1, E1, A4);
    run := Extend(Scene0(), before, Scene10(), Restart(0), Scene11());
  }

  lemma Step12(before: seq<Step>) returns (run: seq<Step>)
    requires Reaches(Scene0(), before, Scene11())
    ensures Reaches(Scene0(), run, Scene12())
  {
    Place0(A4, B4, NEW, D1, E1, A5);
    run := ExtendStand(Scene0(), before, Scene11(), 0, A4);
  }

  lemma Step13(before: seq<Step>) returns (run: seq<Step>)
    requires Reaches(Scene0(), before, Scene12())
    ensures Reaches(Scene0(), run, Scene13())
  {
    Place3(A5, B4, NEW, D1, E1, D2);
    run := ExtendVote(Scene0(), before, Scene12(), 3, D1, BID_TWO);
  }

  lemma Step14(before: seq<Step>) returns (run: seq<Step>)
    requires Reaches(Scene0(), before, Scene13())
    ensures Reaches(Scene0(), run, Scene14())
  {
    Place4(A5, B4, NEW, D2, E1, E2);
    run := ExtendVote(Scene0(), before, Scene13(), 4, E1, BID_TWO);
  }

  lemma Elected2()
    ensures IsMajority(REIGN_TWO.voters, Scene14().nodes.Keys)
    ensures forall j | j in REIGN_TWO.voters :: Grant(2, j, 0) in G6
  {
    Place0(A5, B4, NEW, D2, E2, A6);
    Majority(0, 3, 4);
    assert Grant(2, 0, 0) in G6 && Grant(2, 3, 0) in G6 && Grant(2, 4, 0) in G6;
  }

  lemma Opened2()
    ensures REIGN_TWO.log == A5.log + [Frame(2, NEW_TERM)]
    ensures Scene15() ==
            Scene14().(nodes := Scene14().nodes[0 := Leading(A5)], reigns := Scene14().reigns[2 := REIGN_TWO])
  {
    assert [ONE] + [TWO] == [ONE, TWO];
    Place0(A5, B4, NEW, D2, E2, A6);
  }

  lemma Step15(before: seq<Step>) returns (run: seq<Step>)
    requires Reaches(Scene0(), before, Scene14())
    ensures Reaches(Scene0(), run, Scene15())
  {
    Elected2();
    Opened2();
    run := ExtendWin(Scene0(), before, Scene14(), 0, A5, REIGN_TWO, Scene15());
  }

  lemma Step16(before: seq<Step>) returns (run: seq<Step>)
    requires Reaches(Scene0(), before, Scene15())
    ensures Reaches(Scene0(), run, Scene16())
  {
    Place1(A6, B4, NEW, D2, E2, B5);
    run := Extend(Scene0(), before, Scene15(), Adopt(1, 2), Scene16());
  }

  lemma Step17(before: seq<Step>) returns (run: seq<Step>)
    requires Reaches(Scene0(), before, Scene16())
    ensures Reaches(Scene0(), run, Scene17())
  {
    CutAtOne();
    Place1(A6, B5, NEW, D2, E2, B6);
    run := Extend(Scene0(), before, Scene16(), Reconcile(1), Scene17());
  }

  lemma Step18(before: seq<Step>) returns (run: seq<Step>)
    requires Reaches(Scene0(), before, Scene17())
    ensures Reaches(Scene0(), run, Scene18())
  {
    Place2(A6, B6, NEW, D2, E2, C1);
    run := Extend(Scene0(), before, Scene17(), Adopt(2, 2), Scene18());
  }

  lemma Step19(before: seq<Step>) returns (run: seq<Step>)
    requires Reaches(Scene0(), before, Scene18())
    ensures Reaches(Scene0(), run, Scene19())
  {
    Place2(A6, B6, C1, D2, E2, C2);
    run := ExtendStand(Scene0(), before, Scene18(), 2, C1);
  }

  lemma Step20(before: seq<Step>) returns (run: seq<Step>)
    requires Reaches(Scene0(), before, Scene19())
    ensures Reaches(Scene0(), run, Scene20())
  {
    Place3(A6, B6, C2, D2, E2, D3);
    run := ExtendVote(Scene0(), before, Scene19(), 3, D2, BID_THREE);
  }

  lemma Step21(before: seq<Step>) returns (run: seq<Step>)
    requires Reaches(Scene0(), before, Scene20())
    ensures Reaches(Scene0(), run, Scene21())
  {
    Place4(A6, B6, C2, D3, E2, E3);
    run := ExtendVote(Scene0(), before, Scene20(), 4, E2, BID_THREE);
  }

  lemma Elected3()
    ensures IsMajority(REIGN_THREE.voters, Scene21().nodes.Keys)
    ensures forall j | j in REIGN_THREE.voters :: Grant(3, j, 2) in G9
  {
    Place2(A6, B6, C2, D3, E3, C3);
    Majority(2, 3, 4);
    assert Grant(3, 2, 2) in G9 && Grant(3, 3, 2) in G9 && Grant(3, 4, 2) in G9;
  }

  lemma Opened3()
    ensures REIGN_THREE.log == C2.log + [Frame(3, NEW_TERM)]
    ensures Scene22() ==
            Scene21().(nodes := Scene21().nodes[2 := Leading(C2)], reigns := Scene21().reigns[3 := REIGN_THREE])
  {
    assert [] + [THREE] == [THREE];
    Place2(A6, B6, C2, D3, E3, C3);
  }

  lemma Step22(before: seq<Step>) returns (run: seq<Step>)
    requires Reaches(Scene0(), before, Scene21())
    ensures Reaches(Scene0(), run, Scene22())
  {
    Elected3();
    Opened3();
    run := ExtendWin(Scene0(), before, Scene21(), 2, C2, REIGN_THREE, Scene22());
  }

  lemma Step23(before: seq<Step>) returns (run: seq<Step>)
    requires Reaches(Scene0(), before, Scene22())
    ensures Reaches(Scene0(), run, Scene23())
  {
    assert [THREE][..1] == [THREE];
    Place2(A6, B6, C3, D3, E3, C4);
    run := Extend(Scene0(), before, Scene22(), Fsync(2, 1), Scene23());
  }

  lemma Step24(before: seq<Step>) returns (run: seq<Step>)
    requires Reaches(Scene0(), before, Scene23())
    ensures Reaches(Scene0(), run, Scene24())
  {
    Place3(A6, B6, C4, D3, E3, D4);
    run := Extend(Scene0(), before, Scene23(), Reconcile(3), Scene24());
  }

  lemma Step25(before: seq<Step>) returns (run: seq<Step>)
    requires Reaches(Scene0(), before, Scene24())
    ensures Reaches(Scene0(), run, Scene25())
  {
    assert [] + [THREE] == [THREE];
    Place3(A6, B6, C4, D4, E3, D5);
    run := Extend(Scene0(), before, Scene24(), Accept(3), Scene25());
  }

  lemma Step26(before: seq<Step>) returns (run: seq<Step>)
    requires Reaches(Scene0(), before, Scene25())
    ensures Reaches(Scene0(), run, Scene26())
  {
    Place3(A6, B6, C4, D5, E3, D5);
    run := ExtendSend(Scene0(), before, Scene25(), 3, D5, 1);
  }

  lemma Step27(before: seq<Step>) returns (run: seq<Step>)
    requires Reaches(Scene0(), before, Scene26())
    ensures Reaches(Scene0(), run, Scene27())
  {
    Place4(A6, B6, C4, D5, E3, E4);
    run := Extend(Scene0(), before, Scene26(), Reconcile(4), Scene27());
  }

  lemma Step28(before: seq<Step>) returns (run: seq<Step>)
    requires Reaches(Scene0(), before, Scene27())
    ensures Reaches(Scene0(), run, Scene28())
  {
    assert [] + [THREE] == [THREE];
    Place4(A6, B6, C4, D5, E4, E5);
    run := Extend(Scene0(), before, Scene27(), Accept(4), Scene28());
  }

  lemma Step29(before: seq<Step>) returns (run: seq<Step>)
    requires Reaches(Scene0(), before, Scene28())
    ensures Reaches(Scene0(), run, Scene29())
  {
    Place4(A6, B6, C4, D5, E5, E5);
    run := ExtendSend(Scene0(), before, Scene28(), 4, E5, 1);
  }

  lemma Counted()
    ensures forall j | j in HEARD.holders :: Counts(Scene29(), 2, REIGN_THREE.log, 3, 1, j)
  {
    assert Report(3, 3, 1, 3) in P2 && Report(3, 4, 1, 3) in P2;
  }

  lemma Held()
    ensures IsMajority(HEARD.holders, Scene29().nodes.Keys)
  {
    Place2(A6, B6, C4, D5, E5, C5);
    Majority(2, 3, 4);
  }

  lemma Ranked()
    ensures Scene30() ==
            Scene29().(nodes := Scene29().nodes[2 := C4.(commit := 1)], reports := P3, gossip := O1)
  {
    Place2(A6, B6, C4, D5, E5, C5);
  }

  lemma Step30(before: seq<Step>) returns (run: seq<Step>)
    requires Reaches(Scene0(), before, Scene29())
    ensures Reaches(Scene0(), run, Scene30())
  {
    Counted();
    Held();
    Ranked();
    run := ExtendCommit(Scene0(), before, Scene29(), 2, C4, REIGN_THREE, HEARD, Scene30());
  }

  lemma Step31(before: seq<Step>) returns (run: seq<Step>)
    requires Reaches(Scene0(), before, Scene30())
    ensures Reaches(Scene0(), run, Scene31())
  {
    Place1(A6, B6, C5, D5, E5, B7);
    run := Extend(Scene0(), before, Scene30(), Adopt(1, 3), Scene31());
  }

  lemma Step32(before: seq<Step>) returns (run: seq<Step>)
    requires Reaches(Scene0(), before, Scene31())
    ensures Reaches(Scene0(), run, Scene32())
  {
    assert [ONE, TAIL][..1] == [ONE];
    Place1(A6, B7, C5, D5, E5, B8);
    run := Extend(Scene0(), before, Scene31(), Truncated(1), Scene32());
  }

  lemma Step33(before: seq<Step>) returns (run: seq<Step>)
    requires Reaches(Scene0(), before, Scene32())
    ensures Reaches(Scene0(), run, Scene33())
  {
    Place1(A6, B8, C5, D5, E5, B9);
    run := Extend(Scene0(), before, Scene32(), Intake(1, HEARD), Scene33());
  }

  // Terms agree on the first frame and part on the second.
  lemma CutAtOne()
    ensures Agreed([ONE, TAIL], [ONE, TWO], 0) == 1
  {
    assert Agreed([ONE, TAIL], [ONE, TWO], 1) == 1;
  }

  lemma Part1() returns (run: seq<Step>)
    ensures Initial(Scene0()) && Reaches(Scene0(), run, Scene6())
  {
    assert Reaches(Scene0(), [], Scene0());
    run := [];
    run := Step1(run);
    run := Step2(run);
    run := Step3(run);
    run := Step4(run);
    run := Step5(run);
    run := Step6(run);
  }

  lemma Part2(before: seq<Step>) returns (run: seq<Step>)
    requires Reaches(Scene0(), before, Scene6())
    ensures Reaches(Scene0(), run, Scene10())
  {
    run := before;
    run := Step7(run);
    run := Step8(run);
    run := Step9(run);
    run := Step10(run);
  }

  lemma Part3(before: seq<Step>) returns (run: seq<Step>)
    requires Reaches(Scene0(), before, Scene10())
    ensures Reaches(Scene0(), run, Scene17())
  {
    run := before;
    run := Step11(run);
    run := Step12(run);
    run := Step13(run);
    run := Step14(run);
    run := Step15(run);
    run := Step16(run);
    run := Step17(run);
  }

  lemma Part4(before: seq<Step>) returns (run: seq<Step>)
    requires Reaches(Scene0(), before, Scene17())
    ensures Reaches(Scene0(), run, Scene23())
  {
    run := before;
    run := Step18(run);
    run := Step19(run);
    run := Step20(run);
    run := Step21(run);
    run := Step22(run);
    run := Step23(run);
  }

  lemma Part5(before: seq<Step>) returns (run: seq<Step>)
    requires Reaches(Scene0(), before, Scene23())
    ensures Reaches(Scene0(), run, Scene29())
  {
    run := before;
    run := Step24(run);
    run := Step25(run);
    run := Step26(run);
    run := Step27(run);
    run := Step28(run);
    run := Step29(run);
  }

  lemma Part6(before: seq<Step>) returns (run: seq<Step>)
    requires Reaches(Scene0(), before, Scene29())
    ensures Reaches(Scene0(), run, Scene33())
  {
    run := before;
    run := Step30(run);
    run := Step31(run);
    run := Step32(run);
    run := Step33(run);
  }

  // Node 1 never stood for election, yet it has applied its frame of term 1 where a quorum holds and has
  // committed the frame of term 3.  The one step whose node is unjudged is the last.
  lemma LateCutAppliesStaleFrame() returns (run: seq<Step>)
    ensures Reaches(Scene0(), run, Scene33())
    ensures Scene33().nodes[1].commit == 1 && Scene33().nodes[2].commit == 1
    ensures Scene33().nodes[1].log == [ONE] && Scene33().nodes[2].log == [THREE] && ONE != THREE
    ensures Scene33().nodes[1].voteTerm == 0 && HEARD in Scene33().gossip && HEARD.holders == {2, 3, 4}
    ensures !Judged(Scene32(), Intake(1, HEARD)) && !Vouched(Scene32(), Intake(1, HEARD))
  {
    LastScene();
    run := Part1();
    run := Part2(run);
    run := Part3(run);
    run := Part4(run);
    run := Part5(run);
    run := Part6(run);
  }

  lemma LastScene()
    ensures Scene33().nodes[1] == B9 && Scene33().nodes[2] == C5 && Scene32().nodes[1] == B8
  {
  }
}
