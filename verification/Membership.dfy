/**
The membership orchestrator: a mutable id-to-host map driven through three
scenarios of add-learner, promote, demote and remove steps, with every early
failure exit, beside the cluster whose configuration those steps really change.
 */
module Membership {
  import opened Options
  import opened ClusterConfig
  import opened GateOutcomes

  // The cluster itself: its configuration, and every configuration it ever had.
  class Fleet {
    var config: Config
    ghost var history: seq<Config>
    ghost var lost: bool

    ghost predicate Valid()
      reads this
    {
      IsHistory(history) && history[|history| - 1] == config && WellFormed(config)
    }

    constructor (genesis: Config)
      requires WellFormed(genesis)
      ensures Valid() && config == genesis && history == [genesis] && !lost
    {
      config, history, lost := genesis, [genesis], false;
    }

    // One admin request: it takes effect when the cluster's own rules allow it and it is not refused.
    method Ctl(op: Op, reply: Reply) returns (ok: bool)
      requires Valid()
      modifies this
      ensures Valid()
      ensures ok == (reply.Accept? && Apply(old(config), op).Ok?)
      ensures if reply.Refuse? || Apply(old(config), op).Err?
              then config == old(config) && history == old(history)
              else Apply(old(config), op) == Ok(config) && history == old(history) + [config]
      ensures lost == (old(lost) || (reply.AcceptButLost? && Apply(old(config), op).Ok?))
    {
      var next := Apply(config, op);
      if next.Err? || reply.Refuse? {
        return false;
      }
      ghost var was := config;
      ApplyMovesOne(was, op);
      config, history := next.config, history + [next.config];
      assert Succeeds(was, config);
      lost := lost || reply.AcceptButLost?;
      ok := reply.Accept?;
    }

    // A request's part in what the orchestrator relies on: no new id but its own, no new voter but its own, and
    // no effect that goes unnoticed unless an answer is lost.
    twostate predicate Moved(ids: set<NodeId>, voters: set<NodeId>)
      reads this
    {
      && Valid() && old(history) <= history && Known(config) <= Known(old(config)) + ids
      && (old(lost) ==> lost) && (!lost ==> VoterIds(config) <= VoterIds(old(config)) + voters)
      && old(config).version <= config.version && NewAddresses(old(config), config) <= ids
    }

    method AddFresh(id: NodeId, a: Addr, reply: Reply) returns (ok: bool)
      requires Valid() && id !in Known(config)
      modifies this
      ensures Moved({id}, {}) && Size(config) <= Size(old(config)) + 1
      ensures ok == (reply.Accept? && HasRoom(old(config)))
      ensures ok ==> id in Ids(config.learners) && VoterIds(config) == VoterIds(old(config))
      ensures ok ==> Size(config) == Size(old(config)) + 1 && config.version == old(config).version + 1
      ensures ok ==> ReachedOnlyAt(config, id, a)
    {
      AdmitsFresh(config, id, a);
      if HasRoom(config) { Effects(config, AddLearner(id, a)); }
      ok := Ctl(AddLearner(id, a), reply);
    }

    method PromoteOne(id: NodeId, reply: Reply) returns (ok: bool)
      requires Valid() && id in Ids(config.learners)
      modifies this
      ensures Moved({}, if ok then {id} else {}) && Size(config) <= Size(old(config)) && ok == reply.Accept?
      ensures ok ==> VoterIds(config) == VoterIds(old(config)) + {id} && Size(config) == Size(old(config))
      ensures ok ==> config.version == old(config).version + 1
    {
      PromotesLearners(config, id);
      Effects(config, PromoteLearner(id));
      ok := Ctl(PromoteLearner(id), reply);
    }

    method DemoteOne(id: NodeId, ghost other: NodeId, reply: Reply) returns (ok: bool)
      requires Valid()
      modifies this
      ensures Moved({}, {}) && Size(config) <= Size(old(config))
      ensures {id, other} <= VoterIds(old(config)) && id != other ==> ok == reply.Accept?
      ensures ok ==> id in Ids(config.learners) && VoterIds(config) == VoterIds(old(config)) - {id}
      ensures ok ==> config.version == old(config).version + 1
    {
      if {id, other} <= VoterIds(config) && id != other { LeavesVoters(config, id, other); }
      if Apply(config, DemoteVoter(id)).Ok? { Effects(config, DemoteVoter(id)); }
      ok := Ctl(DemoteVoter(id), reply);
    }

    method RemoveOne(op: Op, reply: Reply) returns (ok: bool)
      requires Valid() && (op.RemoveVoter? || op.RemoveLearner?)
      modifies this
      ensures Moved({}, {}) && Size(config) <= Size(old(config))
      ensures ok == (reply.Accept? && Apply(old(config), op).Ok?)
      ensures ok ==> VoterIds(config) == VoterIds(old(config)) - {op.id} && config.version == old(config).version + 1
    {
      if Apply(config, op).Ok? { Effects(config, op); }
      ok := Ctl(op, reply);
    }
  }

  function Known(c: Config): set<NodeId> {
    MemberIds(c) + Dead(c)
  }

  function Size(c: Config): nat {
    |c.voters| + |c.learners|
  }

  // A learner with a fresh id would be admitted.
  predicate HasRoom(c: Config) {
    Size(c) < MAX_MEMBERS
  }

  // What a successful transition does to the ids and to the size.
  lemma Effects(c: Config, op: Op)
    requires WellFormed(c) && Apply(c, op).Ok?
    ensures var c' := Apply(c, op).config;
            && OneMove(c, c', op)
            && Known(c') <= Known(c) + (if op.AddLearner? then {op.id} else {})
            && VoterIds(c') <= VoterIds(c) + (if op.PromoteLearner? then {op.id} else {})
            && (op.RemoveVoter? || op.RemoveLearner? ==> VoterIds(c') == VoterIds(c) - {op.id})
            && Size(c') <= Size(c) + (if op.AddLearner? then 1 else 0)
            && (op.AddLearner? ==> Size(c') == Size(c) + 1) && (op.PromoteLearner? ==> Size(c') == Size(c))
            && NewAddresses(c, c') <= (if op.AddLearner? then {op.id} else {})
            && (op.AddLearner? ==> ReachedOnlyAt(c', op.id, op.addr))
  {
    ApplyMovesOne(c, op);
    AddressesAreKept(c, op);
  }

  // The ids the later configuration reaches at an address the earlier one does not have for them.
  ghost function NewAddresses(c: Config, c': Config): set<NodeId> {
    set m | m in c'.voters + c'.learners && !At(c, m.id, m.addr) :: m.id
  }

  // The book holds issued ids only, and under each added one the address it is reached at.
  ghost predicate Booked(addr: map<NodeId, Addr>, nextId: NodeId, c: Config) {
    forall id | id in addr :: id < nextId && (id >= 10 ==> ReachedOnlyAt(c, id, addr[id]))
  }

  lemma BookStays(addr: map<NodeId, Addr>, nextId: NodeId, c: Config, c': Config, ids: set<NodeId>)
    requires Booked(addr, nextId, c) && NewAddresses(c, c') <= ids && forall id | id in ids :: id !in addr
    ensures Booked(addr, nextId, c')
  {
    forall id, b: Addr | id in addr && At(c', id, b) ensures At(c, id, b) {
      assert Member(id, b) in c'.voters + c'.learners;
    }
  }

  // If the id is a member, it is one at this address.
  ghost predicate ReachedOnlyAt(c: Config, id: NodeId, a: Addr) {
    forall b: Addr | At(c, id, b) :: b == a
  }

  lemma AdmitsFresh(c: Config, id: NodeId, a: Addr)
    requires id !in Known(c)
    ensures Apply(c, AddLearner(id, a)).Ok? <==> HasRoom(c)
  {
    PositionIs(c.voters, id);
    PositionIs(c.learners, id);
  }

  lemma PromotesLearners(c: Config, id: NodeId)
    requires WellFormed(c) && id in Ids(c.learners)
    ensures Apply(c, PromoteLearner(id)).Ok?
  {
    PositionIs(c.learners, id);
  }

  lemma LeavesVoters(c: Config, id: NodeId, other: NodeId)
    requires WellFormed(c) && id in VoterIds(c) && other in VoterIds(c) && id != other
    ensures Apply(c, RemoveVoter(id)).Ok? && Apply(c, DemoteVoter(id)).Ok?
  {
    PositionIs(c.voters, id);
    var i :| 0 <= i < |c.voters| && c.voters[i].id == id;
    var j :| 0 <= j < |c.voters| && c.voters[j].id == other;
  }

  lemma RemovesLearners(c: Config, id: NodeId)
    requires WellFormed(c) && id in Ids(c.learners)
    ensures Apply(c, RemoveLearner(id)).Ok?
  {
    PositionIs(c.learners, id);
  }

  ghost predicate Apart(m: map<NodeId, nat>, a: NodeId, b: NodeId) {
    a in m && b in m && a != b ==> m[a] != m[b]
  }

  ghost predicate Injective(m: map<NodeId, nat>) {
    forall a: NodeId, b: NodeId {:trigger Apart(m, a, b)} :: Apart(m, a, b)
  }

  // The nodes of all these voters are up.
  predicate AllUp(m: map<NodeId, nat>, down: set<nat>) {
    forall id | id in m :: m[id] !in down
  }

  class Orchestrator {
    var voters: map<NodeId, nat>      // node id -> host index
    var addr: map<NodeId, Addr>
    var nextId: NodeId
    var version: nat
    var down: set<nat>                // hosts whose node was killed and not started again
    const hosts: nat

    // The map is injective into the hosts and every voter has an address; ids are issued upward from ten, so
    // those issued are the ones from ten up to the next; nothing in the cluster carries an id not yet issued;
    // unless an answer was lost, every real voter is in the map; the version waited for is one the cluster has
    // reached; and every node that was added is booked under the address the cluster has for it.
    ghost predicate Valid(fleet: Fleet)
      reads this, fleet
    {
      && fleet.Valid() && Injective(voters) && voters.Keys <= addr.Keys
      && (forall id | id in voters :: voters[id] < hosts)
      && nextId >= 10
      && (forall id | id in Known(fleet.config) :: id < nextId)
      && (!fleet.lost ==> VoterIds(fleet.config) <= voters.Keys)
      && version <= fleet.config.version
      && Booked(addr, nextId, fleet.config)
    }

    // The map has exactly the cluster's voters.
    ghost predicate InStep(fleet: Fleet)
      reads this, fleet
    {
      voters.Keys == VoterIds(fleet.config)
    }

    // Every voter's node is up.  A killed node's page stays at the version it had, so it never reports a newer one.
    predicate Healthy()
      reads this
    {
      AllUp(voters, down)
    }

    ghost function Now(fleet: Fleet): Standing
      reads this, fleet
    {
      Standing(|voters|, Size(fleet.config), Healthy())
    }

    constructor (fleet: Fleet, addr0: Addr, addr1: Addr, addr2: Addr, hosts: nat)
      requires fleet.Valid() && !fleet.lost && hosts >= 3
      requires Known(fleet.config) <= {0, 1, 2} && VoterIds(fleet.config) == {0, 1, 2}
      ensures Valid(fleet) && voters == map[0 := 0, 1 := 1, 2 := 2] && this.hosts == hosts && nextId == 10 && down == {}
    {
      this.hosts := hosts;
      voters := map[0 := 0, 1 := 1, 2 := 2];
      addr := map[0 := addr0, 1 := addr1, 2 := addr2];
      nextId, version, down := 10, 0, {};
    }

    // Ids are fresh for ever: never an original id, never one issued before.
    method FreshId(ghost fleet: Fleet) returns (id: NodeId)
      requires Valid(fleet)
      modifies this`nextId
      ensures Valid(fleet)
      ensures id == old(nextId) >= 10 && nextId == id + 1
      ensures id !in Known(fleet.config) && id !in addr
    {
      id := nextId;
      nextId := nextId + 1;
    }

    // The lowest host no voter runs on; None stands for the exception.
    method FreeHostIndex() returns (host: Option<nat>)
      requires Injective(voters) && forall id | id in voters :: voters[id] < hosts
      ensures host.Some? ==> host.value < hosts && host.value !in voters.Values
      ensures host.Some? ==> forall i | 0 <= i < host.value :: i in voters.Values
      ensures host.None? ==> forall i | 0 <= i < hosts :: i in voters.Values
      ensures host.Some? <==> |voters| < hosts
    {
      for i := 0 to hosts
        invariant forall k | 0 <= k < i :: k in voters.Values
      {
        if i !in voters.Values {
          FreeHostLeft(voters, hosts, i);
          return Some(i);
        }
      }
      host := None;
      EveryHostUsed(voters, hosts);
    }

    // ------------------------------------------------------------------ the steps

    // All polled hosts report the new configuration: none of them is down, and none is late.
    method Converge(env: Env) returns (ok: bool)
      modifies this`version
      ensures ok == (env.converged && Healthy()) && version == old(version) + 1
    {
      version := version + 1;
      ok := env.converged && Healthy();
    }

    // Add a learner, start its node on a free host and wait until it has caught up.
    method Admit(fleet: Fleet, id: NodeId, host: nat, a: Addr, env: Env) returns (v: Verdict)
      requires Valid(fleet) && id < nextId && id !in Known(fleet.config) && id !in addr && host !in voters.Values
      modifies this`addr, this`version, this`down, fleet
      ensures Valid(fleet) && old(fleet.history) <= fleet.history
      ensures v == Measured(env, Admits(old(Now(fleet)), env))
      ensures addr == if env.begun && env.reply.Accept? && HasRoom(old(fleet.config))
                      then old(addr)[id := a] else old(addr)
      ensures v == Passed ==> id in addr && host !in down && Size(fleet.config) == Size(old(fleet.config)) + 1
      ensures v == Passed ==> id in Ids(fleet.config.learners) && VoterIds(fleet.config) == VoterIds(old(fleet.config))
      ensures Healthy() == old(Healthy()) && Size(fleet.config) <= Size(old(fleet.config)) + 1
    {
      if !env.begun {
        return Raised;
      }
      ghost var was := fleet.config;
      var acted := fleet.AddFresh(id, a, env.reply);
      BookStays(addr, nextId, was, fleet.config, {id});
      if acted {
        addr := addr[id := a];
        down := down - {host};
        acted := Converge(env);
        acted := acted && env.caughtUp;
      }
      v := Measured(env, acted);
    }

    method Promote(fleet: Fleet, id: NodeId, host: nat, env: Env) returns (v: Verdict)
      requires Valid(fleet) && id < nextId && id in addr && id !in voters && id in Ids(fleet.config.learners)
      requires host < hosts && host !in voters.Values && host !in down
      modifies this`voters, this`version, fleet
      ensures Valid(fleet) && old(fleet.history) <= fleet.history
      ensures v == Measured(env, Settles(env) && old(Healthy()))
      ensures voters == if env.begun && env.reply.Accept? then old(voters)[id := host] else old(voters)
      ensures v == Passed ==> VoterIds(fleet.config) == VoterIds(old(fleet.config)) + {id}
      ensures v == Passed ==> Size(fleet.config) == Size(old(fleet.config))
      ensures Healthy() == old(Healthy()) && Size(fleet.config) <= Size(old(fleet.config))
    {
      if !env.begun {
        return Raised;
      }
      ghost var was := fleet.config;
      var acted := fleet.PromoteOne(id, env.reply);
      BookStays(addr, nextId, was, fleet.config, {});
      if acted {
        SeatKeeps(voters, id, host, down);
        voters := voters[id := host];
        acted := Converge(env);
      }
      v := Measured(env, acted);
    }

    // The action of a removal: the map forgets the id once the request is accepted.
    method AskRemoval(fleet: Fleet, op: Op, env: Env) returns (acted: bool)
      requires Valid(fleet) && (op.RemoveVoter? || op.RemoveLearner?)
      modifies this`voters, this`version, fleet
      ensures Valid(fleet) && old(fleet.history) <= fleet.history
      ensures voters == old(voters) - (if env.reply.Accept? && Apply(old(fleet.config), op).Ok? then {op.id} else {})
      ensures acted == (Settles(env) && Apply(old(fleet.config), op).Ok? && Healthy())
      ensures Size(fleet.config) <= Size(old(fleet.config))
      ensures acted ==> VoterIds(fleet.config) == VoterIds(old(fleet.config)) - {op.id}
    {
      DropKeeps(voters, op.id, down);
      ghost var was := fleet.config;
      acted := fleet.RemoveOne(op, env.reply);
      BookStays(addr, nextId, was, fleet.config, {});
      if acted {
        voters := voters - {op.id};
        acted := Converge(env);
      }
    }

    method Remove(fleet: Fleet, id: NodeId, env: Env) returns (v: Verdict)
      requires Valid(fleet)
      modifies this`voters, this`version, fleet
      ensures Valid(fleet) && old(fleet.history) <= fleet.history
      ensures voters == old(voters) || voters == old(voters) - {id}
      ensures v == Passed ==> voters == old(voters) - {id}
      ensures v == Passed ==> VoterIds(fleet.config) == VoterIds(old(fleet.config)) - {id}
      ensures old(Healthy()) ==> Healthy()
      ensures old(Healthy()) && id in Ids(old(fleet.config).learners) ==> v == Measured(env, Settles(env))
    {
      if !env.begun {
        return Raised;
      }
      if id in Ids(fleet.config.learners) { RemovesLearners(fleet.config, id); }
      DropKeeps(voters, id, down);
      var acted := AskRemoval(fleet, RemoveLearner(id), env);
      v := Measured(env, acted);
    }

    // A demoted id stays in the map until it is removed.
    method Demote(fleet: Fleet, id: NodeId, ghost other: NodeId, env: Env) returns (v: Verdict)
      requires Valid(fleet)
      modifies this`version, fleet
      ensures Valid(fleet) && old(fleet.history) <= fleet.history
      ensures v == Passed ==> id in Ids(fleet.config.learners)
      ensures v == Passed ==> VoterIds(fleet.config) == VoterIds(old(fleet.config)) - {id}
      ensures old(Healthy()) && {id, other} <= VoterIds(old(fleet.config)) && id != other ==>
              v == Measured(env, Settles(env))
    {
      if !env.begun {
        return Raised;
      }
      ghost var was := fleet.config;
      var acted := fleet.DemoteOne(id, other, env.reply);
      BookStays(addr, nextId, was, fleet.config, {});
      if acted {
        acted := Converge(env);
      }
      v := Measured(env, acted);
    }

    // -------------------------------------------------------------- the scenarios

    // Some voter answers as leader, none does within the budget, or several do at once, which raises.
    method WaitLeader(poll: Poll) returns (leader: Option<NodeId>, split: bool)
      ensures leader.Some? ==> leader.value in voters
      ensures leader.Some? <==> Heard(poll, |voters|).OneLeader?
      ensures split <==> Heard(poll, |voters|).SplitBrain?
    {
      leader, split := None, |voters| >= 2 && poll.SplitBrain?;
      if !split && |voters| >= 1 && !poll.NoLeader? {
        assert voters.Keys != {};
        var id :| id in voters.Keys;
        leader := Some(id);
      }
    }

    // Add a fresh node on a free host as a learner and promote it.
    method AddAndPromote(fleet: Fleet, id: NodeId, host: nat, a: Addr, envs: Growth) returns (v: Verdict)
      requires Valid(fleet) && id < nextId && id !in addr && id !in Known(fleet.config)
      requires host < hosts && host !in voters.Values
      modifies this`addr, this`voters, this`version, this`down, fleet
      ensures Valid(fleet) && old(fleet.history) <= fleet.history
      ensures v == GrowVerdict(old(Now(fleet)), hosts, envs)
      ensures voters == if Seats(old(Now(fleet)), hosts, envs)
                        then old(voters)[id := host] else old(voters)
      ensures v == Passed ==> Size(fleet.config) == Size(old(fleet.config)) + 1
      ensures v == Passed ==> Healthy() && VoterIds(fleet.config) == VoterIds(old(fleet.config)) + {id}
      ensures Healthy() == old(Healthy()) && Size(fleet.config) <= Size(old(fleet.config)) + 1
    {
      FreeHostLeft(voters, hosts, host);
      v := Admit(fleet, id, host, a, envs.add);
      if v == Passed {
        v := Promote(fleet, id, host, envs.promote);
      }
    }

    // The growing half of two scenarios, from the search for a free host on.
    method Grow(fleet: Fleet, a: Addr, envs: Growth) returns (v: Verdict, id: NodeId)
      requires Valid(fleet)
      modifies this, fleet
      ensures Valid(fleet) && old(fleet.history) <= fleet.history && Size(fleet.config) <= Size(old(fleet.config)) + 1
      ensures nextId == old(nextId) + (if |old(voters)| < hosts then 1 else 0)
      ensures |old(voters)| < hosts ==> id == old(nextId)
      ensures v == GrowVerdict(old(Now(fleet)), hosts, envs)
      ensures |voters| == |old(voters)| + (if Seats(old(Now(fleet)), hosts, envs) then 1 else 0)
      ensures voters == old(voters) || IsGrown(old(voters), voters, id)
      ensures Healthy() == old(Healthy())
      ensures v == Passed ==> IsGrown(old(voters), voters, id) && Now(fleet) == GateOutcomes.Grown(old(Now(fleet)))
      ensures v == Passed ==> VoterIds(fleet.config) == VoterIds(old(fleet.config)) + {id}
      ensures v == Passed ==> id !in VoterIds(old(fleet.config)) && (old(InStep(fleet)) ==> InStep(fleet))
    {
      id := 0;
      var spare := FreeHostIndex();
      if spare.None? {
        return Raised, id;
      }
      id := FreshId(fleet);
      v := AddAndPromote(fleet, id, spare.value, a, envs);
      GrowOutcome(old(voters), voters, id, spare.value);
    }

    // The action of a replacement's removal: kill the voter's node, then ask for its removal.
    method Crash(fleet: Fleet, victim: NodeId, ghost other: NodeId, env: Env) returns (acted: bool)
      requires Valid(fleet) && victim in voters && other != victim
      modifies this`voters, this`version, this`down, fleet
      ensures Valid(fleet) && old(fleet.history) <= fleet.history
      ensures voters == old(voters) || voters == old(voters) - {victim}
      ensures acted ==> voters == old(voters) - {victim}
      ensures Size(fleet.config) <= Size(old(fleet.config))
      ensures old(InStep(fleet) && Healthy()) && other in old(voters) ==>
              && acted == Settles(env) && (Healthy() <==> env.reply.Accept?)
              && voters == old(voters) - (if env.reply.Accept? then {victim} else {})
    {
      if InStep(fleet) && other in voters { LeavesVoters(fleet.config, victim, other); }
      KillIsSeen(voters, victim, down);
      down := down + {voters[victim]};
      acted := AskRemoval(fleet, RemoveVoter(victim), env);
    }

    method CrashAndRemove(fleet: Fleet, victim: NodeId, ghost other: NodeId, env: Env) returns (v: Verdict)
      requires Valid(fleet) && victim in voters && other != victim
      modifies this`voters, this`version, this`down, fleet
      ensures Valid(fleet) && old(fleet.history) <= fleet.history
      ensures v == Raised <==> Breaks(env)
      ensures voters == old(voters) || voters == old(voters) - {victim}
      ensures v == Passed ==> voters == old(voters) - {victim}
      ensures Size(fleet.config) <= Size(old(fleet.config))
      ensures old(InStep(fleet) && Healthy()) && other in old(voters) ==>
              && v == Measured(env, Settles(env))
              && voters == old(voters) - (if env.begun && env.reply.Accept? then {victim} else {})
              && (Healthy() <==> !env.begun || env.reply.Accept?)
    {
      if !env.begun {
        return Raised;
      }
      var acted := Crash(fleet, victim, other, env);
      v := Measured(env, acted);
    }

    // After a growth, the victim is a voter that is neither the leader nor the new node; with none the pick raises.
    method RemoveOther(fleet: Fleet, ghost before: map<NodeId, nat>, leader: NodeId, id: NodeId, env: Env)
      returns (v: Verdict, victim: NodeId)
      requires Valid(fleet) && IsGrown(before, voters, id) && leader in before
      modifies this`voters, this`version, this`down, fleet
      ensures Valid(fleet) && old(fleet.history) <= fleet.history && Size(fleet.config) <= Size(old(fleet.config))
      ensures v == Raised <==> |before| == 1 || Breaks(env)
      ensures v == Passed ==> IsReplaced(before, voters, leader, id, victim)
      ensures old(InStep(fleet) && Healthy()) ==> IsRemoval(|before|, Now(fleet), env, v)
    {
      victim := 0;
      GrownKeys(before, voters, leader, id);
      var others := voters.Keys - {leader, id};
      if others == {} {
        return Raised, victim;
      }
      victim :| victim in others;
      ghost var grown := voters;
      Replaced(before, grown, leader, id, victim);
      v := CrashAndRemove(fleet, victim, leader, env);
    }

    // Grow by one node, then remove one of the other voters.
    method GrowThenRemove(fleet: Fleet, leader: NodeId, a: Addr, envs: Replacement)
      returns (v: Verdict, id: NodeId, victim: NodeId)
      requires Valid(fleet) && leader in voters
      modifies this, fleet
      ensures Valid(fleet) && old(fleet.history) <= fleet.history && old(nextId) <= nextId
      ensures v == Raised <==> ReplaceVerdict(old(Now(fleet)), hosts, envs) == Raised
      ensures Size(fleet.config) <= Size(old(fleet.config)) + 1
      ensures v == Passed ==> IsReplaced(old(voters), voters, leader, id, victim)
      ensures old(InStep(fleet)) ==> IsReplacement(old(Now(fleet)), Now(fleet), hosts, envs, v)
    {
      ghost var s := Now(fleet);
      victim := 0;
      v, id := Grow(fleet, a, envs.growth);
      if v == Passed {
        v, victim := RemoveOther(fleet, old(voters), leader, id, envs.remove);
        if old(InStep(fleet)) { WithRemoval(s, Now(fleet), hosts, envs, v); }
      } else {
        WithoutRemoval(s, Now(fleet), hosts, envs, v);
      }
    }

    // The same under whichever leader was found; a passing replacement must also have kept its dips small.
    method ReplaceABox(fleet: Fleet, poll: Poll, a: Addr, envs: Replacement, dipsOk: bool)
      returns (v: Verdict, leader: Option<NodeId>, id: NodeId, victim: NodeId)
      requires Valid(fleet)
      modifies this, fleet
      ensures Valid(fleet) && old(fleet.history) <= fleet.history && old(nextId) <= nextId
      ensures var heard := Heard(poll, |old(voters)|);
              v == Raised <==> Scenario(heard, ReplaceVerdict(old(Now(fleet)), hosts, envs), dipsOk) == Raised
      ensures Size(fleet.config) <= Size(old(fleet.config)) + 1
      ensures v == Passed ==> leader.Some? && IsReplaced(old(voters), voters, leader.value, id, victim)
      ensures var heard := Heard(poll, |old(voters)|);
              old(InStep(fleet)) ==>
                && v == Scenario(heard, ReplaceVerdict(old(Now(fleet)), hosts, envs), dipsOk)
                && (if heard.OneLeader? then LeavesFrom(old(Now(fleet)), Now(fleet), hosts, envs)
                    else Now(fleet) == old(Now(fleet)))
    {
      v, id, victim := Failed, 0, 0;
      var split;
      leader, split := WaitLeader(poll);
      if split {
        v := Raised;
      } else if leader.Some? {
        v, id, victim := GrowThenRemove(fleet, leader.value, a, envs);
        if v == Passed && !dipsOk {
          v := Failed;
        }
      }
    }

    // Demote one grown node and remove it as a learner.
    method Shrink(fleet: Fleet, id: NodeId, ghost other: NodeId, env: Shrinking) returns (v: Verdict)
      requires Valid(fleet)
      modifies this`voters, this`version, fleet
      ensures Valid(fleet) && old(fleet.history) <= fleet.history
      ensures voters == old(voters) || voters == old(voters) - {id}
      ensures v == Passed ==> voters == old(voters) - {id}
      ensures v == Passed ==> VoterIds(fleet.config) == VoterIds(old(fleet.config)) - {id}
      ensures old(Healthy()) ==> Healthy()
      ensures old(Healthy()) && {id, other} <= VoterIds(old(fleet.config)) && id != other ==> v == ShrinkVerdict(env)
    {
      v := Demote(fleet, id, other, env.demote);
      if v == Passed {
        v := Remove(fleet, id, env.remove);
      }
    }

    method GrowTwo(fleet: Fleet, a: Addr, ghost other: NodeId, envs: Two<Growth>)
      returns (v: Verdict, grown: seq<NodeId>)
      requires Valid(fleet) && other in VoterIds(fleet.config)
      modifies this, fleet
      ensures Valid(fleet) && old(fleet.history) <= fleet.history && old(nextId) <= nextId
      ensures v == GrowTwoVerdict(old(Now(fleet)), hosts, envs)
      ensures old(voters).Keys <= voters.Keys
      ensures v == Passed ==> |grown| == 2 && AreGrown(old(voters), voters, grown) && Healthy()
      ensures v == Passed ==> Joined(fleet.config, grown, other)
    {
      v, grown := Passed, [];
      var k := 0;
      while k < 2 && v == Passed
        invariant 0 <= k <= 2
        invariant Valid(fleet) && old(fleet.history) <= fleet.history && old(nextId) <= nextId
        invariant old(voters).Keys <= voters.Keys
        invariant v == Passed ==> |grown| == k && AreGrown(old(voters), voters, grown)
        invariant v == Passed ==> Joined(fleet.config, grown, other)
        invariant k == 0 ==> v == Passed && Now(fleet) == old(Now(fleet))
        invariant k == 1 ==> v == GrowVerdict(old(Now(fleet)), hosts, envs.first)
        invariant k == 1 && v == Passed ==> Now(fleet) == GateOutcomes.Grown(old(Now(fleet)))
        invariant k == 2 ==> v == GrowTwoVerdict(old(Now(fleet)), hosts, envs) && (v == Passed ==> Healthy())
        decreases 2 - k
      {
        ghost var before, config, s := voters, fleet.config, Now(fleet);
        var id;
        v, id := Grow(fleet, a, if k == 0 then envs.first else envs.second);
        if v == Passed {
          PassedGrowth(s, hosts, if k == 0 then envs.first else envs.second);
          AlsoGrown(old(voters), before, voters, grown, id);
          AlsoJoined(config, fleet.config, grown, id, other);
          grown := grown + [id];
        }
        k := k + 1;
      }
    }

    method ShrinkTwo(fleet: Fleet, ghost baseVoters: map<NodeId, nat>, ghost other: NodeId, grown: seq<NodeId>,
                     envs: Two<Shrinking>)
      returns (v: Verdict)
      requires Valid(fleet) && |grown| == 2 && AreGrown(baseVoters, voters, grown) && Healthy()
      requires Joined(fleet.config, grown, other)
      modifies this`voters, this`version, fleet
      ensures Valid(fleet) && old(fleet.history) <= fleet.history
      ensures v == ShrinkTwoVerdict(envs)
      ensures baseVoters.Keys <= voters.Keys && (v == Passed ==> voters == baseVoters)
    {
      v := Passed;
      var k := 0;
      while k < 2 && v == Passed
        invariant 0 <= k <= 2
        invariant Valid(fleet) && old(fleet.history) <= fleet.history && Healthy()
        invariant baseVoters.Keys <= voters.Keys
        invariant v == Passed ==> AreGrown(baseVoters, voters, grown[k..]) && Joined(fleet.config, grown[k..], other)
        invariant k == 0 ==> v == Passed
        invariant k == 1 ==> v == ShrinkVerdict(envs.first)
        invariant k == 2 ==> v == ShrinkTwoVerdict(envs)
        decreases 2 - k
      {
        ghost var before, config := voters, fleet.config;
        v := Shrink(fleet, grown[k], other, if k == 0 then envs.first else envs.second);
        OneGone(baseVoters, before, before - {grown[k]}, grown[k..]);
        assert grown[k..][1..] == grown[k + 1..];
        if v == Passed { OneLeft(config, fleet.config, grown[k..], other); }
        k := k + 1;
      }
    }

    // Grow from three voters to five and shrink back to the set the scenario started with.
    method Resize353(fleet: Fleet, poll: Poll, a: Addr, grow: Two<Growth>, shrink: Two<Shrinking>, dipsOk: bool)
      returns (v: Verdict)
      requires Valid(fleet)
      modifies this, fleet
      ensures Valid(fleet) && old(fleet.history) <= fleet.history && old(nextId) <= nextId
      ensures v == ResizeVerdict(old(Now(fleet)), hosts, Heard(poll, |old(voters)|), grow, shrink, dipsOk)
      ensures old(voters).Keys <= voters.Keys && (v == Passed ==> voters == old(voters))
    {
      v := Failed;
      var leader, split := WaitLeader(poll);
      if split {
        v := Raised;
      } else if leader.Some? {
        var baseVoters := voters;
        ghost var other := SomeVoter(fleet.config);
        var grown;
        v, grown := GrowTwo(fleet, a, other, grow);
        if v == Passed {
          v := ShrinkTwo(fleet, baseVoters, other, grown, shrink);
          if v == Passed && (voters != baseVoters || !dipsOk) {
            v := Failed;
          }
        }
      }
    }

    // The leader removes itself; the map forgets it only once a survivor is serving.
    method LeaderSelfRemoval(fleet: Fleet, poll: Poll, h: Handover) returns (v: Verdict, leader: Option<NodeId>)
      requires Valid(fleet)
      modifies this`voters, fleet
      ensures Valid(fleet) && old(fleet.history) <= fleet.history
      ensures leader.Some? ==> leader.value in old(voters)
      ensures var allowed := leader.Some? && Removable(old(fleet.config), leader.value);
              v == SelfVerdict(Heard(poll, |old(voters)|), h, allowed)
      ensures voters == old(voters) || (leader.Some? && voters == old(voters) - {leader.value})
      ensures v == Passed ==> leader.Some? && voters == old(voters) - {leader.value}
    {
      v := Failed;
      var split;
      leader, split := WaitLeader(poll);
      if split {
        v := Raised;
      } else if leader.Some? {
        ghost var was := fleet.config;
        var ok := fleet.RemoveOne(RemoveVoter(leader.value), h.reply);
        BookStays(addr, nextId, was, fleet.config, {});
        if !h.answered {
          v := Raised;
        } else if ok && h.taken {
          DropKeeps(voters, leader.value, down);
          voters := voters - {leader.value};
          v := if !h.driverMoved then Raised else if h.committing then Passed else Failed;
        }
      }
    }
  }

  // The cluster's own rules allow the removal of this voter.
  predicate Removable(c: Config, id: NodeId) {
    Apply(c, RemoveVoter(id)).Ok?
  }

  method StartedGate(fleet: Fleet, addrs: (Addr, Addr, Addr)) returns (o: Orchestrator)
    requires fleet.Valid() && !fleet.lost && VoterIds(fleet.config) == Known(fleet.config) == {0, 1, 2}
    requires Size(fleet.config) == 3
    ensures fresh(o) && o.Valid(fleet) && o.InStep(fleet) && o.Now(fleet) == START && o.hosts == HOSTS
  {
    o := new Orchestrator(fleet, addrs.0, addrs.1, addrs.2, HOSTS);
    assert o.voters.Keys == {0, 1, 2};
    assert |o.voters| == |o.voters.Keys| == 3;
  }

  // The first two scenarios on a fresh fleet: the second runs unless an exception escapes the first.
  method ReplaceThenResize(fleet: Fleet, o: Orchestrator, a: Addr, x: Inputs) returns (verdicts: seq<Verdict>)
    requires o.Valid(fleet) && o.InStep(fleet) && o.Now(fleet) == START && o.hosts == HOSTS && x.start.OneLeader?
    modifies o, fleet
    ensures o.Valid(fleet) && old(fleet.history) <= fleet.history && |o.voters| >= 3
    ensures verdicts == FirstVerdicts(x)
  {
    var v, leader, id, victim := o.ReplaceABox(fleet, x.polls.first, a, x.replace, x.dipsOk.first);
    verdicts := [v];
    FirstIs(x, v);
    if v != Raised {
      ghost var voters, s := o.voters, o.Now(fleet);
      var w := o.Resize353(fleet, x.polls.second, a, x.grow, x.shrink, x.dipsOk.second);
      SecondIs(x, s, v, w);
      SubsetCard(voters.Keys, o.voters.Keys);
      verdicts := [v, w];
    }
  }

  // The whole gate on three voters and two spare hosts.  An exception that escapes a scenario ends it there; the
  // third verdict is that of the self-removal under the configuration the first two left.
  method RunGate(fleet: Fleet, addrs: (Addr, Addr, Addr), a: Addr, x: Inputs, poll: Poll, h: Handover)
    returns (o: Orchestrator, verdicts: seq<Verdict>, leader: Option<NodeId>, ghost left: Config)
    requires fleet.Valid() && !fleet.lost && VoterIds(fleet.config) == Known(fleet.config) == {0, 1, 2}
    requires Size(fleet.config) == 3
    modifies fleet
    ensures fresh(o) && o.Valid(fleet) && old(fleet.history) <= fleet.history
    ensures verdicts == FirstVerdicts(x) +
              if x.start.OneLeader? && Raised !in FirstVerdicts(x)
              then [SelfVerdict(poll, h, leader.Some? && Removable(left, leader.value))] else []
  {
    o := StartedGate(fleet, addrs);
    leader, left := None, fleet.config;
    if !x.start.OneLeader? {
      verdicts := if x.start.NoLeader? then [] else [Raised];
    } else {
      verdicts := ReplaceThenResize(fleet, o, a, x);
      left := fleet.config;
      if Raised !in verdicts {
        var v;
        v, leader := o.LeaderSelfRemoval(fleet, poll, h);
        verdicts := verdicts + [v];
      }
    }
  }

  const GENESIS := Config(0, [Member(0, (0, 0)), Member(1, (1, 0)), Member(2, (2, 0))], [], [])

  lemma GenesisIsThree()
    ensures WellFormed(GENESIS) && VoterIds(GENESIS) == Known(GENESIS) == {0, 1, 2} && Size(GENESIS) == 3
  {
    var m := GENESIS.voters;
    assert m[0] in m && m[1] in m && m[2] in m;
  }

  // Everything goes through except what becomes of the replacement's promotion and removal.
  function Otherwise(promote: Env, remove: Env): Inputs {
    var growth, shrinking := Growth(SMOOTH, SMOOTH), Shrinking(SMOOTH, SMOOTH);
    Inputs(OneLeader, Two(OneLeader, OneLeader), Replacement(Growth(SMOOTH, promote), remove),
           Two(growth, growth), Two(shrinking, shrinking), Two(true, true))
  }

  // A run that runs out of hosts, for every choice of the leader: the promotion is accepted but not seen in time.
  method UnseenPromotionRaises(poll: Poll, h: Handover) returns (o: Orchestrator, verdicts: seq<Verdict>)
    ensures verdicts == [Failed, Raised]
  {
    GenesisIsThree();
    var fleet := new Fleet(GENESIS);
    var x := Otherwise(SMOOTH.(converged := false), SMOOTH);
    CalmGateRaisesIff(x);
    var leader;
    ghost var left;
    o, verdicts, leader, left := RunGate(fleet, ((0, 0), (1, 0), (2, 0)), (3, 0), x, poll, h);
  }

  // A refused removal leaves a dead voter in the map, and the resize then fails instead of raising.
  method RefusedRemovalFails(poll: Poll, h: Handover) returns (o: Orchestrator, verdicts: seq<Verdict>)
    ensures |verdicts| == 3 && verdicts[0] == Failed && verdicts[1] == Failed
  {
    GenesisIsThree();
    var fleet := new Fleet(GENESIS);
    var x := Otherwise(SMOOTH, SMOOTH.(reply := Refuse));
    CalmGateRaisesIff(x);
    RefusedIsDead(x);
    var leader;
    ghost var left;
    o, verdicts, leader, left := RunGate(fleet, ((0, 0), (1, 0), (2, 0)), (3, 0), x, poll, h);
  }

  lemma RefusedIsDead(x: Inputs)
    requires x == Otherwise(SMOOTH, SMOOTH.(reply := Refuse))
    ensures |FirstVerdicts(x)| == 2 && FirstVerdicts(x)[0] == Failed && FirstVerdicts(x)[1] == Failed
  {
  }

  // ------------------------------------------------------------- health of the hosts

  lemma SeatKeeps(m: map<NodeId, nat>, id: NodeId, host: nat, down: set<nat>)
    requires Injective(m) && id !in m && host !in m.Values && host !in down
    ensures Injective(m[id := host]) && (AllUp(m[id := host], down) <==> AllUp(m, down))
  {
    var n := m[id := host];
    forall a: NodeId, b: NodeId ensures Apart(n, a, b) { assert Apart(m, a, b); }
    if AllUp(n, down) {
      forall x | x in m ensures m[x] !in down { assert n[x] == m[x]; }
    }
  }

  lemma DropKeeps(m: map<NodeId, nat>, id: NodeId, down: set<nat>)
    requires Injective(m)
    ensures Injective(m - {id}) && (AllUp(m, down) ==> AllUp(m - {id}, down))
  {
    var n := m - {id};
    forall a: NodeId, b: NodeId ensures Apart(n, a, b) { assert Apart(m, a, b); }
  }

  // Taking a killed voter out of the map takes its host out of the poll; leaving it in does not.
  lemma KillIsSeen(m: map<NodeId, nat>, id: NodeId, down: set<nat>)
    requires Injective(m) && id in m
    ensures !AllUp(m, down + {m[id]}) && (AllUp(m, down) ==> AllUp(m - {id}, down + {m[id]}))
  {
    assert m[id] in down + {m[id]};
    if AllUp(m, down) {
      forall x | x in m - {id} ensures m[x] !in down + {m[id]} { assert Apart(m, x, id); }
    }
  }

  lemma GrowOutcome(before: map<NodeId, nat>, after: map<NodeId, nat>, id: NodeId, host: nat)
    requires id !in before && host !in before.Values && (after == before || after == before[id := host])
    ensures after == before || (IsGrown(before, after, id) && |after| == |before| + 1)
  {
    if after == before[id := host] {
      assert IsGrown(before, after, id);
      GrownSize(before, after, id);
    }
  }

  lemma GrownKeys(before: map<NodeId, nat>, grown: map<NodeId, nat>, leader: NodeId, id: NodeId)
    requires IsGrown(before, grown, id) && leader in before
    ensures grown.Keys == before.Keys + {id} && (grown.Keys <= {leader, id} <==> |before| == 1)
  {
    GrownSize(before, grown, id);
    if |before| == 1 {
      SubsetCard({leader}, before.Keys);
      OnlyOne(before.Keys, leader);
    } else if grown.Keys <= {leader, id} {
      OneVoter(before.Keys, leader, id);
    }
  }

  lemma OnlyOne(s: set<NodeId>, x: NodeId)
    requires x in s && |s| == 1
    ensures s == {x}
  {
    assert s == {x} + (s - {x});
    CardOfUnion({x}, s - {x});
  }

  // ------------------------------------------------------------- the real configuration behind the growths

  // The grown ids are voters of the real configuration, beside one that was there before.
  ghost predicate Joined(c: Config, grown: seq<NodeId>, other: NodeId) {
    && other in VoterIds(c) && (forall i, j | 0 <= i < j < |grown| :: grown[i] != grown[j])
    && (forall i | 0 <= i < |grown| :: grown[i] in VoterIds(c) && grown[i] != other)
  }

  lemma AlsoJoined(before: Config, now: Config, grown: seq<NodeId>, id: NodeId, other: NodeId)
    requires Joined(before, grown, other) && id !in VoterIds(before) && VoterIds(now) == VoterIds(before) + {id}
    ensures Joined(now, grown + [id], other)
  {
  }

  lemma SomeVoter(c: Config) returns (id: NodeId)
    requires WellFormed(c)
    ensures id in VoterIds(c)
  {
    id := c.voters[0].id;
    assert c.voters[0] in c.voters;
  }

  lemma OneLeft(before: Config, now: Config, grown: seq<NodeId>, other: NodeId)
    requires grown != [] && Joined(before, grown, other) && VoterIds(now) == VoterIds(before) - {grown[0]}
    ensures Joined(now, grown[1..], other)
  {
  }

  function SetOf(s: seq<NodeId>): set<NodeId> {
    set x | x in s
  }

  // Every id of `grown` is a new voter of `now`, and without them `now` is `base` again.
  ghost predicate AreGrown(base: map<NodeId, nat>, now: map<NodeId, nat>, grown: seq<NodeId>) {
    && (forall i, j | 0 <= i < j < |grown| :: grown[i] != grown[j])
    && (forall i | 0 <= i < |grown| :: grown[i] !in base && grown[i] in now)
    && now - SetOf(grown) == base
  }

  lemma SetOfCons(s: seq<NodeId>)
    requires s != []
    ensures SetOf(s) == {s[0]} + SetOf(s[1..])
  {
    assert s == [s[0]] + s[1..];
  }

  lemma AlsoGrown(base: map<NodeId, nat>, before: map<NodeId, nat>, now: map<NodeId, nat>,
                  grown: seq<NodeId>, id: NodeId)
    requires AreGrown(base, before, grown) && IsGrown(before, now, id)
    ensures AreGrown(base, now, grown + [id])
  {
    assert SetOf(grown + [id]) == SetOf(grown) + {id};
    assert base.Keys == before.Keys - SetOf(grown);
    assert now - SetOf(grown + [id]) == before - SetOf(grown);
  }

  lemma OneGone(base: map<NodeId, nat>, before: map<NodeId, nat>, now: map<NodeId, nat>, grown: seq<NodeId>)
    requires grown != [] && AreGrown(base, before, grown) && now == before - {grown[0]}
    ensures AreGrown(base, now, grown[1..])
  {
    SetOfCons(grown);
    assert now - SetOf(grown[1..]) == before - SetOf(grown);
  }

  // `after` is `before` with one new voter on a host of its own.
  ghost predicate IsGrown(before: map<NodeId, nat>, after: map<NodeId, nat>, id: NodeId) {
    id !in before && id in after && after == before[id := after[id]] && after[id] !in before.Values
  }

  lemma GrownSize(before: map<NodeId, nat>, after: map<NodeId, nat>, id: NodeId)
    requires IsGrown(before, after, id)
    ensures after.Keys == before.Keys + {id} && |after| == |before| + 1
  {
    CardOfUnion(before.Keys, {id});
  }

  ghost predicate IsShrunk(before: map<NodeId, nat>, after: map<NodeId, nat>, id: NodeId) {
    id in before && after == before - {id}
  }

  lemma ShrunkSize(before: map<NodeId, nat>, after: map<NodeId, nat>, id: NodeId)
    requires IsShrunk(before, after, id)
    ensures after.Keys == before.Keys - {id} && |after| == |before| - 1
  {
    assert before.Keys == after.Keys + {id};
    CardOfUnion(after.Keys, {id});
  }

  // One voter other than the leader gave way to one new voter on a host that was free.
  ghost predicate IsReplaced(before: map<NodeId, nat>, after: map<NodeId, nat>,
                             leader: NodeId, id: NodeId, victim: NodeId)
  {
    && victim in before && victim != leader && id !in before
    && after.Keys == before.Keys - {victim} + {id} && |after| == |before|
    && (forall x | x in after && x != id :: after[x] == before[x]) && after[id] !in before.Values
  }

  lemma Replaced(before: map<NodeId, nat>, grown: map<NodeId, nat>, leader: NodeId, id: NodeId, victim: NodeId)
    requires IsGrown(before, grown, id) && leader in before && victim in grown && victim != leader && victim != id
    ensures IsReplaced(before, grown - {victim}, leader, id, victim)
    ensures |grown| == |before| + 1 && |grown - {victim}| == |before|
  {
    GrownSize(before, grown, id);
    ShrunkSize(grown, grown - {victim}, victim);
  }

  function Below(n: nat): set<nat> {
    if n == 0 then {} else Below(n - 1) + {n - 1}
  }

  lemma {:induction false} BelowIs(n: nat)
    ensures |Below(n)| == n && forall i | i in Below(n) :: 0 <= i < n
  {
    if n > 0 { BelowIs(n - 1); }
  }

  lemma SplitValues(m: map<NodeId, nat>, id: NodeId)
    requires id in m
    ensures m.Values == (m - {id}).Values + {m[id]} && |m| == |m - {id}| + 1
  {
    var rest := m - {id};
    forall v | v in m.Values ensures v in rest.Values + {m[id]} {
      var x :| x in m && m[x] == v;
      if x != id { assert x in rest && rest[x] == v; }
    }
    assert m.Keys == rest.Keys + {id};
    CardOfUnion(rest.Keys, {id});
  }

  lemma {:induction false} ValuesCard(m: map<NodeId, nat>)
    ensures |m.Values| <= |m|
    decreases |m|
  {
    if m.Keys != {} {
      var k :| k in m.Keys;
      SplitValues(m, k);
      ValuesCard(m - {k});
      CardAdd((m - {k}).Values, m[k]);
    } else {
      assert m.Values == {};
    }
  }

  lemma CardAdd(s: set<nat>, x: nat)
    ensures |s + {x}| <= |s| + 1
  {
    if x in s { assert s + {x} == s; } else { CardOfUnion(s, {x}); }
  }

  lemma {:induction false} InjectiveCard(m: map<NodeId, nat>)
    requires Injective(m)
    ensures |m.Values| == |m|
    decreases |m|
  {
    if m.Keys == {} {
      assert m.Values == {};
    } else {
      var k :| k in m.Keys;
      var rest := m - {k};
      SplitValues(m, k);
      DropKeeps(m, k, {});
      InjectiveCard(rest);
      forall x | x in rest ensures rest[x] != m[k] { assert Apart(m, x, k); }
      CardOfUnion(rest.Values, {m[k]});
    }
  }

  lemma FreeHostLeft(m: map<NodeId, nat>, hosts: nat, i: nat)
    requires Injective(m) && i < hosts && i !in m.Values && forall id | id in m :: m[id] < hosts
    ensures |m| < hosts
  {
    InjectiveCard(m);
    BelowIs(hosts);
    AllBelow(hosts);
    assert m.Values + {i} <= Below(hosts);
    CardOfUnion(m.Values, {i});
    SubsetCard(m.Values + {i}, Below(hosts));
  }

  lemma {:induction false} AllBelow(n: nat)
    ensures forall i | 0 <= i < n :: i in Below(n)
  {
    if n > 0 { AllBelow(n - 1); }
  }

  // Pigeonhole: if every host carries a voter there are at least as many voters as hosts.
  lemma EveryHostUsed(m: map<NodeId, nat>, hosts: nat)
    requires forall i | 0 <= i < hosts :: i in m.Values
    ensures |m| >= hosts
  {
    BelowIs(hosts);
    ValuesCard(m);
    SubsetCard(Below(hosts), m.Values);
  }

  // A voter set whose only members are the leader and the new node held one voter before.
  lemma OneVoter(before: set<NodeId>, leader: NodeId, id: NodeId)
    requires leader in before && id !in before && before + {id} <= {leader, id}
    ensures |before| == 1
  {
    assert before == {leader};
  }
}
