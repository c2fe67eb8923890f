/**
Cluster membership: the single-server transition every membership change goes
through, and what holds along every run of such transitions.
 */
module ClusterConfig {

  type NodeId = nat
  type Addr = (nat, nat)

  datatype Member = Member(id: NodeId, addr: Addr)

  datatype Config = Config(version: nat, voters: seq<Member>, learners: seq<Member>, tombstones: seq<NodeId>)

  datatype Op =
    | AddLearner(id: NodeId, addr: Addr)
    | PromoteLearner(id: NodeId)
    | DemoteVoter(id: NodeId)
    | RemoveLearner(id: NodeId)
    | RemoveVoter(id: NodeId)

  datatype Error = Tombstoned | AlreadyPresent | NotFound | WrongRole | ZeroVoters | TooManyMembers

  datatype Result = Ok(config: Config) | Err(error: Error)

  const MAX_MEMBERS: nat := 8

  // ------------------------------------------------------------- the transition

  // The position of `id`, or |ms|.
  function Position(ms: seq<Member>, id: NodeId): nat {
    if ms == [] || ms[0].id == id then 0 else 1 + Position(ms[1..], id)
  }

  function Without(ms: seq<Member>, pos: nat): seq<Member>
    requires pos < |ms|
  {
    ms[..pos] + ms[pos + 1..]
  }

  // Precondition order: tombstone, presence and role, zero voters, the member cap.
  function Apply(c: Config, op: Op): Result {
    if op.id in c.tombstones then Err(Tombstoned)
    else
      var v, l := Position(c.voters, op.id), Position(c.learners, op.id);
      match op
      case AddLearner(id, addr) =>
        if v < |c.voters| || l < |c.learners| then Err(AlreadyPresent)
        else if |c.voters| + |c.learners| >= MAX_MEMBERS then Err(TooManyMembers)
        else Ok(c.(version := c.version + 1, learners := c.learners + [Member(id, addr)]))
      case PromoteLearner(id) =>
        if l < |c.learners| then
          Ok(c.(version := c.version + 1, learners := Without(c.learners, l), voters := c.voters + [c.learners[l]]))
        else Err(if v < |c.voters| then WrongRole else NotFound)
      case DemoteVoter(id) =>
        if v < |c.voters| then
          if |c.voters| <= 1 then Err(ZeroVoters)
          else Ok(c.(version := c.version + 1, voters := Without(c.voters, v), learners := c.learners + [c.voters[v]]))
        else Err(if l < |c.learners| then WrongRole else NotFound)
      case RemoveLearner(id) =>
        if l < |c.learners| then
          Ok(c.(version := c.version + 1, learners := Without(c.learners, l), tombstones := c.tombstones + [id]))
        else Err(if v < |c.voters| then WrongRole else NotFound)
      case RemoveVoter(id) =>
        if v < |c.voters| then
          if |c.voters| <= 1 then Err(ZeroVoters)
          else Ok(c.(version := c.version + 1, voters := Without(c.voters, v), tombstones := c.tombstones + [id]))
        else Err(if l < |c.learners| then WrongRole else NotFound)
  }

  // ------------------------------------------------------------- what it preserves

  function Ids(ms: seq<Member>): set<NodeId> {
    set m | m in ms :: m.id
  }

  function VoterIds(c: Config): set<NodeId> {
    Ids(c.voters)
  }

  function MemberIds(c: Config): set<NodeId> {
    Ids(c.voters) + Ids(c.learners)
  }

  function Dead(c: Config): set<NodeId> {
    set id | id in c.tombstones
  }

  ghost predicate DistinctIds(ms: seq<Member>) {
    forall i, j | 0 <= i < j < |ms| :: ms[i].id != ms[j].id
  }

  // One role per id, nobody both alive and dead, at least one voter, at most MAX_MEMBERS members.
  ghost predicate WellFormed(c: Config) {
    && DistinctIds(c.voters) && DistinctIds(c.learners)
    && Ids(c.voters) !! Ids(c.learners) && MemberIds(c) !! Dead(c)
    && 1 <= |c.voters| && |c.voters| + |c.learners| <= MAX_MEMBERS
  }

  lemma {:induction false} PositionIs(ms: seq<Member>, id: NodeId)
    ensures var p := Position(ms, id);
            p <= |ms| && (p < |ms| ==> ms[p].id == id) && (p < |ms| <==> id in Ids(ms))
  {
    if ms != [] {
      PositionIs(ms[1..], id);
      assert ms == [ms[0]] + ms[1..];
      if ms[0].id == id {
        assert ms[0] in ms;
      } else if id in Ids(ms) {
        var m :| m in ms && m.id == id;
        assert m in ms[1..];
      }
    }
  }

  lemma IdsOfSnoc(ms: seq<Member>, m: Member)
    ensures Ids(ms + [m]) == Ids(ms) + {m.id}
    ensures DistinctIds(ms) && m.id !in Ids(ms) ==> DistinctIds(ms + [m])
  {
    var after := ms + [m];
    assert after[|ms|] == m && forall i | 0 <= i < |ms| :: after[i] == ms[i] && ms[i] in ms;
    forall x | x in Ids(ms) + {m.id} ensures x in Ids(after) {
      if x == m.id {
        assert m in after;
      } else {
        var y :| y in ms && y.id == x;
        assert y in after;
      }
    }
  }

  lemma IdsOfWithout(ms: seq<Member>, pos: nat)
    requires DistinctIds(ms) && pos < |ms|
    ensures DistinctIds(Without(ms, pos)) && Ids(Without(ms, pos)) == Ids(ms) - {ms[pos].id}
  {
    var after := Without(ms, pos);
    assert forall i | 0 <= i < |after| :: after[i] == if i < pos then ms[i] else ms[i + 1];
    forall x | x in Ids(ms) - {ms[pos].id} ensures x in Ids(after) {
      var i :| 0 <= i < |ms| && ms[i].id == x;
      assert ms[i] == if i < pos then after[i] else after[i - 1];
    }
    forall x | x in Ids(after) ensures x in Ids(ms) - {ms[pos].id} {
      var i :| 0 <= i < |after| && after[i].id == x;
      assert after[i] in ms;
    }
  }

  lemma DeadOfSnoc(c: Config, c': Config, id: NodeId)
    requires c'.tombstones == c.tombstones + [id]
    ensures Dead(c') == Dead(c) + {id}
  {
  }

  // What a successful transition does to the three populations: at most one id changes place, an id
  // only ever moves learner -> voter -> learner -> dead, and nobody vanishes.
  ghost predicate OneMove(c: Config, c': Config, op: Op) {
    && c'.version == c.version + 1
    && match op
       case AddLearner(id, _) =>
         && id !in MemberIds(c) + Dead(c) && Ids(c'.learners) == Ids(c.learners) + {id}
         && VoterIds(c') == VoterIds(c) && Dead(c') == Dead(c)
       case PromoteLearner(id) =>
         && id in Ids(c.learners) && Ids(c'.learners) == Ids(c.learners) - {id}
         && VoterIds(c') == VoterIds(c) + {id} && Dead(c') == Dead(c)
       case DemoteVoter(id) =>
         && id in VoterIds(c) && Ids(c'.learners) == Ids(c.learners) + {id}
         && VoterIds(c') == VoterIds(c) - {id} && Dead(c') == Dead(c)
       case RemoveLearner(id) =>
         && id in Ids(c.learners) && Ids(c'.learners) == Ids(c.learners) - {id}
         && VoterIds(c') == VoterIds(c) && Dead(c') == Dead(c) + {id}
       case RemoveVoter(id) =>
         && id in VoterIds(c) && Ids(c'.learners) == Ids(c.learners)
         && VoterIds(c') == VoterIds(c) - {id} && Dead(c') == Dead(c) + {id}
  }

  lemma ApplyMovesOne(c: Config, op: Op)
    requires WellFormed(c) && Apply(c, op).Ok?
    ensures OneMove(c, Apply(c, op).config, op) && WellFormed(Apply(c, op).config)
  {
    var c' := Apply(c, op).config;
    var v, l := Position(c.voters, op.id), Position(c.learners, op.id);
    PositionIs(c.voters, op.id);
    PositionIs(c.learners, op.id);
    match op
    case AddLearner(id, addr) =>
      IdsOfSnoc(c.learners, Member(id, addr));
    case PromoteLearner(id) =>
      IdsOfWithout(c.learners, l);
      IdsOfSnoc(c.voters, c.learners[l]);
    case DemoteVoter(id) =>
      IdsOfWithout(c.voters, v);
      IdsOfSnoc(c.learners, c.voters[v]);
    case RemoveLearner(id) =>
      IdsOfWithout(c.learners, l);
      DeadOfSnoc(c, c', id);
    case RemoveVoter(id) =>
      IdsOfWithout(c.voters, v);
      DeadOfSnoc(c, c', id);
  }

  // ------------------------------------------------------------- addresses, order and refusals

  // A member with this id has this address, in either role.
  predicate At(c: Config, id: NodeId, a: Addr) {
    Member(id, a) in c.voters || Member(id, a) in c.learners
  }

  // Who is reached where after an accepted change: the added learner at the address asked for, everybody else,
  // promoted and demoted ids included, where they were.
  ghost predicate AddressesFollow(c: Config, c': Config, op: Op) {
    forall id: NodeId, a: Addr ::
      At(c', id, a) <==> if op.id != id then At(c, id, a)
                         else match op
                           case AddLearner(_, addr) => a == addr
                           case PromoteLearner(_) => At(c, id, a)
                           case DemoteVoter(_) => At(c, id, a)
                           case RemoveLearner(_) => false
                           case RemoveVoter(_) => false
  }

  lemma MembersOfSnoc(ms: seq<Member>, m: Member)
    ensures forall x :: x in ms + [m] <==> x in ms || x == m
  {
  }

  lemma MembersOfWithout(ms: seq<Member>, pos: nat)
    requires DistinctIds(ms) && pos < |ms|
    ensures forall x :: x in Without(ms, pos) <==> x in ms && x.id != ms[pos].id
  {
    var after := Without(ms, pos);
    assert forall i | 0 <= i < |after| :: after[i] == if i < pos then ms[i] else ms[i + 1];
    forall x | x in ms && x.id != ms[pos].id ensures x in after {
      var i :| 0 <= i < |ms| && ms[i] == x;
      assert x == if i < pos then after[i] else after[i - 1];
    }
  }

  // In a list with distinct ids a member's entry is the only one under its id.
  lemma OnlyEntry(ms: seq<Member>, pos: nat)
    requires DistinctIds(ms) && pos < |ms|
    ensures forall x | x in ms && x.id == ms[pos].id :: x == ms[pos]
    ensures forall x | x in ms :: x.id in Ids(ms)
  {
  }

  lemma AddressesAreKept(c: Config, op: Op)
    requires WellFormed(c) && Apply(c, op).Ok?
    ensures AddressesFollow(c, Apply(c, op).config, op)
  {
    var v, l := Position(c.voters, op.id), Position(c.learners, op.id);
    PositionIs(c.voters, op.id);
    PositionIs(c.learners, op.id);
    assert forall x | x in c.voters :: x.id in Ids(c.voters);
    assert forall x | x in c.learners :: x.id in Ids(c.learners);
    match op
    case AddLearner(id, addr) =>
      MembersOfSnoc(c.learners, Member(id, addr));
    case PromoteLearner(id) =>
      OnlyEntry(c.learners, l);
      MembersOfWithout(c.learners, l);
      MembersOfSnoc(c.voters, c.learners[l]);
    case DemoteVoter(id) =>
      OnlyEntry(c.voters, v);
      MembersOfWithout(c.voters, v);
      MembersOfSnoc(c.learners, c.voters[v]);
    case RemoveLearner(id) =>
      MembersOfWithout(c.learners, l);
    case RemoveVoter(id) =>
      MembersOfWithout(c.voters, v);
  }

  // The list without an id, in order.
  function Except(ms: seq<Member>, id: NodeId): seq<Member> {
    if ms == [] then [] else (if ms[0].id == id then [] else [ms[0]]) + Except(ms[1..], id)
  }

  lemma {:induction false} ExceptConcat(a: seq<Member>, b: seq<Member>, id: NodeId)
    ensures Except(a + b, id) == Except(a, id) + Except(b, id)
  {
    if a == [] {
      assert a + b == b;
    } else {
      assert (a + b)[1..] == a[1..] + b;
      ExceptConcat(a[1..], b, id);
    }
  }

  lemma {:induction false} ExceptWithout(ms: seq<Member>, pos: nat)
    requires pos < |ms|
    ensures Except(Without(ms, pos), ms[pos].id) == Except(ms, ms[pos].id)
  {
    if pos == 0 {
      assert Without(ms, 0) == ms[1..];
    } else {
      var rest := ms[1..];
      ExceptWithout(rest, pos - 1);
      ExceptCons(ms[0], Without(rest, pos - 1), ms[pos].id);
      assert Without(ms, pos) == [ms[0]] + Without(rest, pos - 1);
    }
  }

  lemma ExceptCons(m: Member, ms: seq<Member>, id: NodeId)
    ensures Except([m] + ms, id) == (if m.id == id then [] else [m]) + Except(ms, id)
  {
    assert ([m] + ms)[1..] == ms;
  }

  // An accepted change disturbs nobody else: the others keep their order in both lists, the moved id comes last
  // in the list it enters, and a removed id is the newest tombstone.
  lemma OthersKeepOrder(c: Config, op: Op)
    requires Apply(c, op).Ok?
    ensures var c' := Apply(c, op).config;
            && Except(c'.voters, op.id) == Except(c.voters, op.id)
            && Except(c'.learners, op.id) == Except(c.learners, op.id)
            && (op.PromoteLearner? ==> c'.voters[|c'.voters| - 1].id == op.id)
            && (op.AddLearner? || op.DemoteVoter? ==> c'.learners[|c'.learners| - 1].id == op.id)
            && c'.tombstones == if op.RemoveLearner? || op.RemoveVoter? then c.tombstones + [op.id] else c.tombstones
  {
    var v, l := Position(c.voters, op.id), Position(c.learners, op.id);
    PositionIs(c.voters, op.id);
    PositionIs(c.learners, op.id);
    assert forall m: Member | m.id == op.id :: Except([m], op.id) == [];
    match op
    case AddLearner(id, addr) =>
      ExceptConcat(c.learners, [Member(id, addr)], id);
    case PromoteLearner(id) =>
      ExceptWithout(c.learners, l);
      ExceptConcat(c.voters, [c.learners[l]], id);
    case DemoteVoter(id) =>
      ExceptWithout(c.voters, v);
      ExceptConcat(c.learners, [c.voters[v]], id);
    case RemoveLearner(id) =>
      ExceptWithout(c.learners, l);
    case RemoveVoter(id) =>
      ExceptWithout(c.voters, v);
  }

  // The role a change asks its id to have: none for an addition.
  predicate HasRole(c: Config, op: Op) {
    match op
    case AddLearner(id, _) => id !in MemberIds(c)
    case PromoteLearner(id) => id in Ids(c.learners)
    case RemoveLearner(id) => id in Ids(c.learners)
    case DemoteVoter(id) => id in VoterIds(c)
    case RemoveVoter(id) => id in VoterIds(c)
  }

  // A change that takes away a voter, and one that brings a member.
  predicate Drains(op: Op) {
    op.DemoteVoter? || op.RemoveVoter?
  }

  // MAIN RESULT.  When a change is refused, and why: for a dead id always; for a live one when it has not the
  // role the change asks for, when it is the last voter, or when there is no room.
  lemma RefusedIff(c: Config, op: Op)
    requires WellFormed(c)
    ensures var r := Apply(c, op);
            && (r == Err(Tombstoned) <==> op.id in Dead(c))
            && (r == Err(AlreadyPresent) <==> op.AddLearner? && op.id in MemberIds(c))
            && (r == Err(WrongRole) <==> !op.AddLearner? && op.id in MemberIds(c) && !HasRole(c, op))
            && (r == Err(NotFound) <==> !op.AddLearner? && op.id !in MemberIds(c) + Dead(c))
            && (r == Err(ZeroVoters) <==> Drains(op) && VoterIds(c) == {op.id})
            && (r == Err(TooManyMembers) <==>
                  op.AddLearner? && op.id !in MemberIds(c) + Dead(c) && |MemberIds(c)| >= MAX_MEMBERS)
  {
    PositionIs(c.voters, op.id);
    PositionIs(c.learners, op.id);
    IdsCount(c.voters);
    IdsCount(c.learners);
    CardOfUnion(Ids(c.voters), Ids(c.learners));
    if op.id in VoterIds(c) { SingleVoter(c.voters, op.id); }
  }

  lemma {:induction false} IdsCount(ms: seq<Member>)
    requires DistinctIds(ms)
    ensures |Ids(ms)| == |ms|
  {
    if ms != [] {
      var last := |ms| - 1;
      IdsCount(ms[..last]);
      assert ms == ms[..last] + [ms[last]];
      IdsOfSnoc(ms[..last], ms[last]);
      assert ms[last].id !in Ids(ms[..last]);
    }
  }

  lemma SingleVoter(ms: seq<Member>, id: NodeId)
    requires DistinctIds(ms) && id in Ids(ms)
    ensures Ids(ms) == {id} <==> |ms| <= 1
  {
    IdsCount(ms);
    if |ms| == 1 { assert ms[0] in ms && forall m | m in ms :: m == ms[0]; }
  }

  // ------------------------------------------------------------------ quorum overlap

  predicate IsMajority(q: set<NodeId>, of: set<NodeId>) {
    q <= of && |q| >= |of| / 2 + 1
  }

  lemma CardOfUnion(a: set<NodeId>, b: set<NodeId>)
    requires a !! b
    ensures |a + b| == |a| + |b|
  {
  }

  lemma {:induction false} SubsetCard(a: set<NodeId>, b: set<NodeId>)
    requires a <= b
    ensures |a| <= |b|
  {
    assert b == a + (b - a);
    CardOfUnion(a, b - a);
  }

  // Two subsets too large to be apart meet.
  lemma LargeSubsetsMeet(p: set<NodeId>, q: set<NodeId>, all: set<NodeId>)
    requires p <= all && q <= all && |p| + |q| > |all|
    ensures p * q != {}
  {
    var both := p * q;
    assert q == (q - both) + both && p + q == p + (q - both);
    CardOfUnion(q - both, both);
    CardOfUnion(p, q - both);
    SubsetCard(p + q, all);
  }

  // Voter sets that differ in at most one id have only overlapping majorities.
  lemma MajoritiesMeet(v: set<NodeId>, w: set<NodeId>, x: NodeId, p: set<NodeId>, q: set<NodeId>)
    requires w == v || w == v + {x} || v == w + {x}
    requires IsMajority(p, v) && IsMajority(q, w)
    ensures p * q != {}
  {
    var all := v + w;
    assert all == v || all == w;
    if w == v + {x} && x !in v { CardOfUnion(v, {x}); }
    if v == w + {x} && x !in w { CardOfUnion(w, {x}); }
    assert v == w || |w| == |v| + 1 || |v| == |w| + 1;
    LargeSubsetsMeet(p, q, all);
  }

  // ------------------------------------------------------------------------ runs

  // Each configuration follows from the one before by one accepted operation.
  ghost predicate IsHistory(h: seq<Config>) {
    && h != [] && WellFormed(h[0])
    && forall i {:trigger Succeeds(h[i], h[i + 1])} | 0 <= i < |h| - 1 :: Succeeds(h[i], h[i + 1])
  }

  ghost predicate Succeeds(c: Config, c': Config) {
    exists op :: Apply(c, op) == Ok(c')
  }

  lemma {:induction false} HistoryWellFormed(h: seq<Config>, i: nat)
    requires IsHistory(h) && i < |h|
    ensures WellFormed(h[i]) && h[i].version == h[0].version + i
  {
    if i > 0 {
      HistoryWellFormed(h, i - 1);
      var k := i - 1;
      assert Succeeds(h[k], h[k + 1]);
      var op :| Apply(h[i - 1], op) == Ok(h[i]);
      ApplyMovesOne(h[i - 1], op);
    }
  }

  lemma NextMove(h: seq<Config>, i: nat) returns (op: Op)
    requires IsHistory(h) && i + 1 < |h|
    ensures WellFormed(h[i]) && OneMove(h[i], h[i + 1], op)
  {
    HistoryWellFormed(h, i);
    assert Succeeds(h[i], h[i + 1]);
    op :| Apply(h[i], op) == Ok(h[i + 1]);
    ApplyMovesOne(h[i], op);
  }

  // MAIN RESULT.  Along every history, every majority of a configuration's voters meets every majority
  // of the next one's.
  lemma ConsecutiveMajoritiesMeet(h: seq<Config>, i: nat, p: set<NodeId>, q: set<NodeId>)
    requires IsHistory(h) && i + 1 < |h|
    requires IsMajority(p, VoterIds(h[i])) && IsMajority(q, VoterIds(h[i + 1]))
    ensures p * q != {}
  {
    var op := NextMove(h, i);
    var v, w := VoterIds(h[i]), VoterIds(h[i + 1]);
    if op.DemoteVoter? || op.RemoveVoter? { assert v == w + {op.id}; }
    MajoritiesMeet(v, w, op.id, p, q);
  }

  // MAIN RESULT.  A removed id stays dead: it is never a member of any later configuration.
  lemma {:induction false} DeadStayDead(h: seq<Config>, i: nat, j: nat, id: NodeId)
    requires IsHistory(h) && i <= j < |h| && id in Dead(h[i])
    ensures id in Dead(h[j]) && id !in MemberIds(h[j])
    decreases j
  {
    HistoryWellFormed(h, j);
    if i < j {
      DeadStayDead(h, i, j - 1, id);
      var op := NextMove(h, j - 1);
    }
  }

  // MAIN RESULT.  Nobody vanishes: an id once known is for ever a member or dead.
  lemma {:induction false} KnownStayKnown(h: seq<Config>, i: nat, j: nat)
    requires IsHistory(h) && i <= j < |h|
    ensures MemberIds(h[i]) + Dead(h[i]) <= MemberIds(h[j]) + Dead(h[j])
    decreases j
  {
    if i < j {
      KnownStayKnown(h, i, j - 1);
      var op := NextMove(h, j - 1);
    }
  }

  lemma {:induction false} AddressStays(h: seq<Config>, i: nat, j: nat, id: NodeId, a: Addr)
    requires IsHistory(h) && i <= j < |h| && At(h[i], id, a) && id in MemberIds(h[j])
    ensures At(h[j], id, a)
    decreases j
  {
    if i < j {
      MemberAt(h[i], id, a);
      MemberBetween(h, i, j - 1, j, id);
      AddressStays(h, i, j - 1, id, a);
      AddressStep(h, j, id, a);
    }
  }

  // MAIN RESULT.  An id has one address in all the configurations of a history it is a member of, whatever roles
  // it passes through.
  lemma OneAddressForLife(h: seq<Config>, i: nat, j: nat, id: NodeId, a: Addr, b: Addr)
    requires IsHistory(h) && i <= j < |h| && At(h[i], id, a) && At(h[j], id, b)
    ensures a == b
  {
    MemberAt(h[j], id, b);
    AddressStays(h, i, j, id, a);
    HistoryWellFormed(h, j);
    OneAddress(h[j], id, a);
  }

  lemma MemberAt(c: Config, id: NodeId, a: Addr)
    requires At(c, id, a)
    ensures id in MemberIds(c)
  {
  }

  lemma MemberBetween(h: seq<Config>, i: nat, k: nat, j: nat, id: NodeId)
    requires IsHistory(h) && i <= k <= j < |h| && id in MemberIds(h[i]) && id in MemberIds(h[j])
    ensures id in MemberIds(h[k])
  {
    KnownStayKnown(h, i, k);
    if id in Dead(h[k]) { DeadStayDead(h, k, j, id); }
  }

  lemma AddressStep(h: seq<Config>, i: nat, id: NodeId, a: Addr)
    requires IsHistory(h) && 0 < i < |h| && At(h[i - 1], id, a) && id in MemberIds(h[i])
    ensures At(h[i], id, a)
  {
    HistoryWellFormed(h, i - 1);
    var k := i - 1;
    assert Succeeds(h[k], h[k + 1]);
    var op :| Apply(h[i - 1], op) == Ok(h[i]);
    ApplyMovesOne(h[i - 1], op);
    AddressesAreKept(h[i - 1], op);
  }

  lemma OneAddress(c: Config, id: NodeId, a: Addr)
    requires WellFormed(c) && At(c, id, a)
    ensures forall b: Addr | At(c, id, b) :: b == a
  {
    assert forall x | x in c.voters :: x.id in Ids(c.voters);
    assert forall x | x in c.learners :: x.id in Ids(c.learners);
  }
}
