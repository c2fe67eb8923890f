/**
The replication protocol as a state machine over a fixed membership: elections, streaming
under a data-plane gate, reconciling against the leader's history, cuts and their later
acknowledgment, attested reports, the leader's commit rule, commit gossip, and restarts from
what is durable.  A frame stands for a stretch of log bytes, and a message once sent may be
taken at any later time, in any order and any number of times.
 */
module Protocol {
  import opened ClusterConfig
  import opened Numbers

  datatype Frame = Frame(term: nat, payload: int)

  type Log = seq<Frame>

  datatype Role = Follower | Candidate | Leader

  datatype Request = Request(term: nat, from: NodeId, lastTerm: nat, length: nat)

  datatype Grant = Grant(term: nat, voter: NodeId, candidate: NodeId)

  datatype Report = Report(term: nat, node: NodeId, length: nat, lastTerm: nat)

  // A commit position, with the quorum whose reports it was ranked from.
  datatype Gossip = Gossip(term: nat, commit: nat, holders: set<NodeId>)

  datatype Node = Node(
    term: nat,
    voteTerm: nat,        // the persisted vote
    votedFor: NodeId,
    role: Role,
    bid: Request,         // what it last stood with
    log: Log,             // what it holds durably
    mapTerm: nat,         // the last term of its term map
    stream: nat,          // the term whose frames its data plane admits
    gate: bool,           // whether the data plane is open
    awaiting: bool,       // commit gossip is held until a reconcile
    unconfirmed: bool,    // its log has a term boundary no reconcile has judged
    truncating: bool,     // a cut to `validated` is commanded and not yet acknowledged
    validated: nat,       // how far its log is confirmed
    vouched: nat,         // the term whose leader confirmed it
    unjudged: bool,       // in this term it stood, or an older cut was acknowledged, and no reconcile came since
    commit: nat)

  // One term's leader: who, by whose votes, where its term begins, and all it has appended.
  datatype Reign = Reign(leader: NodeId, voters: set<NodeId>, base: nat, log: Log)

  type Reigns = map<nat, Reign>

  datatype State = State(
    nodes: map<NodeId, Node>,
    reigns: Reigns,
    requests: set<Request>,
    grants: set<Grant>,
    reports: set<Report>,
    gossip: set<Gossip>)

  datatype Step =
    | Stand(i: NodeId)
    | Adopt(i: NodeId, t: nat)
    | Vote(i: NodeId, r: Request)
    | Win(i: NodeId, voters: set<NodeId>)
    | StepDown(i: NodeId)
    | Append(i: NodeId, payload: int)
    | Fsync(i: NodeId, n: nat)
    | Accept(i: NodeId)
    | Reconcile(i: NodeId)
    | Truncated(i: NodeId)
    | Send(i: NodeId, length: nat)
    | Commit(i: NodeId, c: nat, holders: set<NodeId>)
    | Intake(i: NodeId, g: Gossip)
    | Restart(i: NodeId)

  const NEW_TERM: int := 0

  function LastTerm(l: Log): nat {
    if l == [] then 0 else l[|l| - 1].term
  }

  // The term of the byte just below a position; a leader's own term above what it has appended.
  function TermBelow(l: Log, length: nat): nat {
    if length == 0 then 0 else if length <= |l| then l[length - 1].term else LastTerm(l)
  }

  // Where a log first parts from the leader's, judged by terms alone.
  function Agreed(l: Log, leader: Log, p: nat): nat
    requires p <= |l|
    decreases |l| - p
  {
    if p < |l| && l[p].term == TermBelow(leader, p + 1) then Agreed(l, leader, p + 1) else p
  }

  // The last map term after a reconcile that keeps `v` frames: an entry opened without bytes survives
  // only where the leader's history has it too.
  function ReconciledTerm(n: Node, leader: Log, v: nat): nat
    requires v <= |n.log|
  {
    if v == |n.log| < |leader| && leader[v].term == n.mapTerm then n.mapTerm else LastTerm(n.log[..v])
  }

  // ------------------------------------------------------------- one node's moves

  // It stands for the next term, voting for itself; its data plane keeps its stream.
  function Standing(i: NodeId, n: Node): Node {
    var t := n.term + 1;
    n.(term := t, role := Candidate, voteTerm := t, votedFor := i, bid := Request(t, i, n.mapTerm, |n.log|),
       unjudged := true)
  }

  function Adopting(n: Node, t: nat): Node {
    n.(term := t, role := Follower, stream := t, gate := false, awaiting := true, unjudged := false)
  }

  // A voter moves to the candidate's term if that is newer, then persists its vote.
  function Voting(n: Node, r: Request): Node {
    (if r.term > n.term then Adopting(n, r.term) else n).(voteTerm := r.term, votedFor := r.from)
  }

  function Leading(n: Node): Node {
    n.(role := Leader, stream := n.term, gate := false, awaiting := false, mapTerm := n.term, vouched := n.term,
       unjudged := false)
  }

  // A candidate that hears its term's leader follows it; only the data plane is closed.
  function SteppingDown(n: Node): Node {
    n.(role := Follower, stream := n.term, gate := false)
  }

  // The durable log grows; the validated frontier goes with it only inside the current term.
  function Grown(n: Node, l: Log): Node {
    n.(log := l,
       validated := if !n.awaiting && !n.unconfirmed && n.mapTerm == n.term && n.validated >= |n.log|
                    then |l| else n.validated)
  }

  function Accepting(n: Node, f: Frame): Node {
    if f.term > n.mapTerm then
      n.(log := n.log + [f], mapTerm := f.term, unconfirmed := true, validated := Min(n.validated, |n.log|))
    else
      Grown(n, n.log + [f])
  }

  // The current leader judges the log.  A log it shares throughout is released at once; otherwise the cut is
  // only commanded, and gossip stays held as it was.
  function Reconciling(n: Node, leader: Log): Node {
    AgreedIsBounded(n.log, leader, 0);
    var v := Agreed(n.log, leader, 0);
    var m := n.(unconfirmed := false, unjudged := false, validated := v, vouched := n.term);
    if v == |n.log| then
      m.(mapTerm := ReconciledTerm(n, leader, v), gate := n.gate || n.stream == n.term, awaiting := false)
    else
      m.(gate := false, truncating := true)
  }

  // The cut is acknowledged.  Gossip is released whichever term the cut was decided in; the data plane opens
  // only when no newer term was adopted meanwhile.
  function Settling(n: Node): Node {
    var kept := n.log[..Min(n.validated, |n.log|)];
    n.(log := kept, mapTerm := LastTerm(kept), truncating := false, awaiting := false,
       gate := n.stream == n.term == n.vouched, unjudged := n.vouched != n.term)
  }

  // A commanded cut has already pruned the stored map; what the log still holds is read back from it.
  function Restarting(n: Node): Node {
    var mapTerm := if n.truncating then LastTerm(n.log) else n.mapTerm;
    var t := Max(n.voteTerm, mapTerm);
    n.(term := t, role := Follower, mapTerm := mapTerm, stream := t, gate := n.voteTerm <= mapTerm,
       awaiting := n.voteTerm > mapTerm, unconfirmed := false, truncating := false, validated := |n.log|,
       vouched := mapTerm, unjudged := false, commit := 0)
  }

  lemma {:induction false} AgreedIsBounded(l: Log, leader: Log, p: nat)
    requires p <= |l|
    ensures p <= Agreed(l, leader, p) <= |l|
    decreases |l| - p
  {
    if p < |l| && l[p].term == TermBelow(leader, p + 1) { AgreedIsBounded(l, leader, p + 1); }
  }

  // ------------------------------------------------------------- steps

  // A candidate is at least as fresh as the voter: later last term, or as long under the same.
  predicate Fresh(r: Request, n: Node) {
    r.lastTerm > n.mapTerm || (r.lastTerm == n.mapTerm && r.length >= |n.log|)
  }

  // A quorum member counts for `c` by its own durable log, or by a report the leader's history attests.
  predicate Counts(s: State, i: NodeId, leader: Log, term: nat, c: nat, j: NodeId) {
    j == i || exists r | r in s.reports ::
      r.term == term && r.node == j && r.length >= c && r.lastTerm == TermBelow(leader, r.length)
  }

  // While a cut is in flight only votes, the terms they carry and the acknowledgment get through.
  predicate Can(s: State, step: Step) {
    step.i in s.nodes && var n := s.nodes[step.i];
    match step
    case Stand(i) => n.role != Leader && !n.truncating
    case Adopt(i, t) => t > n.term
    case Vote(i, r) => r in s.requests && r.from != i && r.term >= n.term && r.term > n.voteTerm && Fresh(r, n)
    case Win(i, voters) => n.role == Candidate && IsMajority(voters, s.nodes.Keys) &&
                           forall j | j in voters :: Grant(n.term, j, i) in s.grants
    case StepDown(i) => n.role == Candidate && !n.truncating
    case Append(i, payload) => n.role == Leader && n.term in s.reigns
    case Fsync(i, m) => n.role == Leader && n.term in s.reigns && |n.log| <= m <= |s.reigns[n.term].log|
    case Accept(i) => n.role != Leader && n.gate && n.stream in s.reigns && |n.log| < |s.reigns[n.stream].log|
    case Reconcile(i) => n.role != Leader && n.term in s.reigns && !n.truncating
    case Truncated(i) => n.truncating
    case Send(i, length) => n.role != Leader && length <= |n.log|
    case Commit(i, c, holders) => n.role == Leader && n.term in s.reigns && c > n.commit &&
                                  s.reigns[n.term].base < c <= |n.log| && IsMajority(holders, s.nodes.Keys) &&
                                  forall j | j in holders :: Counts(s, i, s.reigns[n.term].log, n.term, c, j)
    case Intake(i, g) => g in s.gossip && g.term <= n.term && !n.awaiting && !n.truncating &&
                         (n.role == Follower || (n.role == Candidate && n.vouched == n.term))
    case Restart(i) => true
  }

  function With(s: State, i: NodeId, n: Node): State {
    s.(nodes := s.nodes[i := n])
  }

  // The state after node i moves to n and sends messages.
  function After(s: State, i: NodeId, n: Node,
                 rq: set<Request>, gr: set<Grant>, rp: set<Report>, go: set<Gossip>): State {
    State(s.nodes[i := n], s.reigns, s.requests + rq, s.grants + gr, s.reports + rp, s.gossip + go)
  }

  function WithReign(s: State, t: nat, reign: Reign): State {
    s.(reigns := s.reigns[t := reign])
  }

  function Do(s: State, step: Step): State
    requires Can(s, step)
  {
    var i := step.i;
    var n := s.nodes[i];
    match step
    case Stand(_) =>
      var m := Standing(i, n);
      After(s, i, m, {m.bid}, {Grant(m.term, i, i)}, {}, {})
    case Adopt(_, t) => With(s, i, Adopting(n, t))
    case Vote(_, r) => After(s, i, Voting(n, r), {}, {Grant(r.term, i, r.from)}, {}, {})
    case Win(_, voters) =>
      WithReign(With(s, i, Leading(n)), n.term, Reign(i, voters, |n.log|, n.log + [Frame(n.term, NEW_TERM)]))
    case StepDown(_) => With(s, i, SteppingDown(n))
    case Append(_, payload) =>
      var reign := s.reigns[n.term];
      WithReign(s, n.term, reign.(log := reign.log + [Frame(n.term, payload)]))
    case Fsync(_, m) => With(s, i, Grown(n, s.reigns[n.term].log[..m]))
    case Accept(_) => With(s, i, Accepting(n, s.reigns[n.stream].log[|n.log|]))
    case Reconcile(_) => With(s, i, Reconciling(n, s.reigns[n.term].log))
    case Truncated(_) => With(s, i, Settling(n))
    case Send(_, length) => After(s, i, n, {}, {}, {Report(n.stream, i, length, TermBelow(n.log, length))}, {})
    case Commit(_, c, holders) =>
      After(s, i, n.(commit := c), {}, {}, {Report(n.term, i, |n.log|, n.term)}, {Gossip(n.term, c, holders)})
    case Intake(_, g) => With(s, i, n.(commit := Max(n.commit, Min(g.commit, n.validated))))
    case Restart(_) => With(s, i, Restarting(n))
  }

  // ------------------------------------------------------------- runs

  function FirstNode(): Node {
    Node(0, 0, 0, Follower, Request(0, 0, 0, 0), [], 0, 0, true, false, false, false, 0, 0, false, 0)
  }

  ghost predicate Initial(s: State) {
    && (forall i | i in s.nodes :: s.nodes[i] == FirstNode())
    && s.reigns == map[] && s.requests == {} && s.grants == {} && s.reports == {} && s.gossip == {}
  }

  // The run takes a fresh cluster of these nodes through the steps to `s`.
  ghost predicate Reaches(s0: State, steps: seq<Step>, s: State)
    decreases |steps|
  {
    if steps == [] then s == s0 && Initial(s0)
    else
      var last := |steps| - 1;
      exists p :: Reaches(s0, steps[..last], p) && Can(p, steps[last]) && s == Do(p, steps[last])
  }
}
