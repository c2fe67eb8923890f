/**
The inputs of a membership gate run and the verdict each scenario returns for them: a
scenario is a row of measured transitions, and it ends at the first one that does not pass.
An exception raised inside a transition's action is a failure; one raised by the measuring
around it, by the host search or by the leader poll escapes the scenario.
 */
module GateOutcomes {
  import opened ClusterConfig

  // ------------------------------------------------------------- inputs

  // What became of one admin request: refused, accepted, or accepted with the answer lost.
  datatype Reply = Accept | Refuse | AcceptButLost

  // The rate window around a transition: its reading, none, or an exception while fetching it.
  datatype Rate = Reading | NoReading | Broken

  // The environment of one transition: whether the baseline probe and the rate window before the action were
  // answered, the admin reply, whether every polled host that is up reported the new configuration within its
  // budget, whether a new node caught up, and the rate window.
  datatype Env = Env(begun: bool, reply: Reply, converged: bool, caughtUp: bool, rate: Rate)

  // The two transitions of a growth, of a shrinking, and the three of a replacement.
  datatype Growth = Growth(add: Env, promote: Env)

  datatype Shrinking = Shrinking(demote: Env, remove: Env)

  datatype Replacement = Replacement(growth: Growth, remove: Env)

  datatype Two<T> = Two(first: T, second: T)

  // Nothing goes wrong in a transition.
  const SMOOTH := Env(true, Accept, true, true, Reading)

  // The first poll of the voters that decides who leads: none in time, one, or several at once.
  datatype Poll = NoLeader | OneLeader | SplitBrain

  // What happens to the leader's own removal: whether the request returned at all, its reply, whether a single
  // survivor took over in time, whether the load driver could be moved there, and whether commits went on.
  datatype Handover = Handover(answered: bool, reply: Reply, taken: bool, driverMoved: bool, committing: bool)

  // Raised is an exception that escapes the scenario.
  datatype Verdict = Passed | Failed | Raised

  // ------------------------------------------------------------- transitions

  // The measuring around the action raises.
  predicate Breaks(env: Env) {
    !env.begun || env.rate.Broken?
  }

  // A transition whose action went through, or not.
  function Measured(env: Env, acted: bool): Verdict {
    if Breaks(env) then Raised else if acted && env.rate.Reading? then Passed else Failed
  }

  function Then(v: Verdict, w: Verdict): Verdict {
    if v == Passed then w else v
  }

  // The request is accepted and seen by every polled host.
  predicate Settles(env: Env) {
    env.reply.Accept? && env.converged
  }

  // ------------------------------------------------------------- scenarios

  // What a scenario starts from: voters in the orchestrator's map, members of the real configuration, and
  // whether the nodes of all those voters are up.
  datatype Standing = Standing(voters: nat, members: nat, healthy: bool)

  // A learner with a fresh id is admitted, and every voter and the new node report it.
  predicate Admits(s: Standing, env: Env) {
    Settles(env) && env.caughtUp && s.members < MAX_MEMBERS && s.healthy
  }

  // One growth: a free host, a learner, its promotion.
  function GrowVerdict(s: Standing, hosts: nat, envs: Growth): Verdict {
    if s.voters >= hosts then Raised
    else Then(Measured(envs.add, Admits(s, envs.add)), Measured(envs.promote, Settles(envs.promote)))
  }

  // The new voter enters the map, even if its promotion is then not seen in time.
  predicate Seats(s: Standing, hosts: nat, envs: Growth) {
    && s.voters < hosts && Measured(envs.add, Admits(s, envs.add)) == Passed
    && envs.promote.begun && envs.promote.reply.Accept?
  }

  // Where a growth that passed leads.
  function Grown(s: Standing): Standing {
    s.(voters := s.voters + 1, members := s.members + 1)
  }

  // A growth and the removal of a voter that is neither the leader nor new; with no such voter the pick raises.
  function ReplaceVerdict(s: Standing, hosts: nat, envs: Replacement): Verdict {
    Then(GrowVerdict(s, hosts, envs.growth),
         if s.voters == 1 then Raised else Measured(envs.remove, Settles(envs.remove)))
  }

  // The growth passes and the victim's node is killed, before its removal is asked for.
  predicate Kills(s: Standing, hosts: nat, envs: Replacement) {
    GrowVerdict(s, hosts, envs.growth) == Passed && s.voters != 1 && envs.remove.begun
  }

  // The new voter is in the map beside all the old ones.
  predicate LeavesOneOver(s: Standing, hosts: nat, envs: Replacement) {
    Seats(s, hosts, envs.growth) && !(Kills(s, hosts, envs) && envs.remove.reply.Accept?)
  }

  // A killed node is still in the map.
  predicate LeavesOneDead(s: Standing, hosts: nat, envs: Replacement) {
    Kills(s, hosts, envs) && !envs.remove.reply.Accept?
  }

  function GrowTwoVerdict(s: Standing, hosts: nat, envs: Two<Growth>): Verdict {
    Then(GrowVerdict(s, hosts, envs.first), GrowVerdict(Grown(s), hosts, envs.second))
  }

  // A grown id is demoted and removed again.
  function ShrinkVerdict(env: Shrinking): Verdict {
    Then(Measured(env.demote, Settles(env.demote)), Measured(env.remove, Settles(env.remove)))
  }

  function ShrinkTwoVerdict(envs: Two<Shrinking>): Verdict {
    Then(ShrinkVerdict(envs.first), ShrinkVerdict(envs.second))
  }

  // A poll sees no more leaders than there are voters.
  function Heard(poll: Poll, voters: nat): Poll {
    if voters == 0 then NoLeader else if voters == 1 && poll.SplitBrain? then OneLeader else poll
  }

  // A row of transitions under the leader found, and last the bar on their dips.
  function Scenario(poll: Poll, row: Verdict, dipsOk: bool): Verdict {
    match poll
    case NoLeader => Failed
    case SplitBrain => Raised
    case OneLeader => if row == Passed && !dipsOk then Failed else row
  }

  function ResizeVerdict(s: Standing, hosts: nat, poll: Poll, grow: Two<Growth>,
                         shrink: Two<Shrinking>, dipsOk: bool): Verdict {
    Scenario(poll, Then(GrowTwoVerdict(s, hosts, grow), ShrinkTwoVerdict(shrink)), dipsOk)
  }

  // The leader's own removal, given whether the cluster's rules allow it.
  function SelfVerdict(poll: Poll, h: Handover, allowed: bool): Verdict {
    match poll
    case NoLeader => Failed
    case SplitBrain => Raised
    case OneLeader =>
      if !h.answered then Raised
      else if !(h.reply.Accept? && allowed && h.taken) then Failed
      else if !h.driverMoved then Raised
      else if h.committing then Passed else Failed
  }

  // ------------------------------------------------------------- when the resize raises

  // The transitions of a scenario, each with whether its action goes through, up to the first that does not pass.
  function Sweep(steps: seq<(Env, bool)>): Verdict {
    if steps == [] then Passed else Then(Measured(steps[0].0, steps[0].1), Sweep(steps[1..]))
  }

  function GrowSteps(s: Standing, envs: Growth): seq<(Env, bool)> {
    [(envs.add, Admits(s, envs.add)), (envs.promote, Settles(envs.promote))]
  }

  function ShrinkSteps(env: Shrinking): seq<(Env, bool)> {
    [(env.demote, Settles(env.demote)), (env.remove, Settles(env.remove))]
  }

  lemma {:induction false} SweepConcat(a: seq<(Env, bool)>, b: seq<(Env, bool)>)
    ensures Sweep(a + b) == Then(Sweep(a), Sweep(b))
  {
    if a == [] {
      assert a + b == b;
    } else {
      assert (a + b)[1..] == a[1..] + b;
      SweepConcat(a[1..], b);
    }
  }

  lemma TwoSteps(steps: seq<(Env, bool)>)
    requires |steps| == 2
    ensures Sweep(steps) == Then(Measured(steps[0].0, steps[0].1), Measured(steps[1].0, steps[1].1))
  {
    assert steps[1..][1..] == [];
    assert Sweep(steps[1..]) == Then(Measured(steps[1].0, steps[1].1), Sweep([]));
  }

  // A growth that passes has seated the new voter, and all nodes were up.
  lemma PassedGrowth(s: Standing, hosts: nat, envs: Growth)
    requires GrowVerdict(s, hosts, envs) == Passed
    ensures Seats(s, hosts, envs) && s.healthy
  {
  }

  // Every transition before k passes, and the measuring around k raises.
  ghost predicate InterruptedAt(steps: seq<(Env, bool)>, k: nat) {
    k < |steps| && Breaks(steps[k].0) && forall j | 0 <= j < k :: Measured(steps[j].0, steps[j].1) == Passed
  }

  ghost predicate Interrupted(steps: seq<(Env, bool)>) {
    exists k: nat :: InterruptedAt(steps, k)
  }

  lemma {:induction false} SweepRaisesIff(steps: seq<(Env, bool)>)
    ensures Sweep(steps) == Raised <==> Interrupted(steps)
    ensures Sweep(steps) == Passed <==> forall j | 0 <= j < |steps| :: Measured(steps[j].0, steps[j].1) == Passed
  {
    if steps != [] {
      var rest := steps[1..];
      SweepRaisesIff(rest);
      assert forall j | 0 <= j < |rest| :: rest[j] == steps[j + 1];
      if Breaks(steps[0].0) {
        assert InterruptedAt(steps, 0);
      } else if Sweep(steps) == Raised {
        var k: nat :| InterruptedAt(rest, k);
        assert InterruptedAt(steps, k + 1);
      } else if Interrupted(steps) {
        var k: nat :| InterruptedAt(steps, k);
        assert k > 0 && InterruptedAt(rest, k - 1);
      }
    }
  }

  // The resize's transitions in order, as far as there are hosts for its growths.
  function ResizeSteps(s: Standing, hosts: nat, grow: Two<Growth>, shrink: Two<Shrinking>)
    : seq<(Env, bool)>
  {
    if s.voters >= hosts then []
    else if s.voters + 1 == hosts then GrowSteps(s, grow.first)
    else
      GrowSteps(s, grow.first) + GrowSteps(Grown(s), grow.second)
      + ShrinkSteps(shrink.first) + ShrinkSteps(shrink.second)
  }

  ghost predicate ResizeRaises(s: Standing, hosts: nat, poll: Poll, grow: Two<Growth>, shrink: Two<Shrinking>) {
    var steps := ResizeSteps(s, hosts, grow, shrink);
    || poll.SplitBrain?
    || (poll.OneLeader? && Interrupted(steps))
    || (poll.OneLeader? && s.voters + 2 > hosts
          && forall j | 0 <= j < |steps| :: Measured(steps[j].0, steps[j].1) == Passed)
  }

  // MAIN RESULT.  The resize raises instead of returning a verdict if and only if its leader poll sees several
  // leaders; or it finds one and the measuring around a transition it reaches raises; or it finds one, there are
  // not two free hosts, and every transition it has hosts for passes.
  lemma ResizeRaisesIff(s: Standing, hosts: nat, poll: Poll, grow: Two<Growth>,
                        shrink: Two<Shrinking>, dipsOk: bool)
    ensures ResizeVerdict(s, hosts, poll, grow, shrink, dipsOk) == Raised <==>
            ResizeRaises(s, hosts, poll, grow, shrink)
  {
    var steps := ResizeSteps(s, hosts, grow, shrink);
    SweepRaisesIff(steps);
    var a, b := GrowSteps(s, grow.first), GrowSteps(Grown(s), grow.second);
    var c, d := ShrinkSteps(shrink.first), ShrinkSteps(shrink.second);
    TwoSteps(a);
    TwoSteps(b);
    TwoSteps(c);
    TwoSteps(d);
    SweepConcat(a, b);
    SweepConcat(a + b, c);
    SweepConcat(a + b + c, d);
  }

  // Only room counts: any two memberships that leave room for two more give the same verdict.
  lemma RoomDecides(s: Standing, members: nat, hosts: nat, poll: Poll, grow: Two<Growth>,
                    shrink: Two<Shrinking>, dipsOk: bool)
    requires s.members + 1 < MAX_MEMBERS && members + 1 < MAX_MEMBERS
    ensures ResizeVerdict(s, hosts, poll, grow, shrink, dipsOk) ==
            ResizeVerdict(s.(members := members), hosts, poll, grow, shrink, dipsOk)
  {
  }

  // ------------------------------------------------------------- what a replacement leaves

  // How many voters a replacement leaves in the map, and whether their nodes are up.
  predicate LeavesFrom(s: Standing, t: Standing, hosts: nat, envs: Replacement) {
    && t.voters == s.voters + (if LeavesOneOver(s, hosts, envs) then 1 else 0)
    && (t.healthy <==> s.healthy && !LeavesOneDead(s, hosts, envs))
  }

  predicate IsReplacement(s: Standing, t: Standing, hosts: nat, envs: Replacement, v: Verdict) {
    v == ReplaceVerdict(s, hosts, envs) && LeavesFrom(s, t, hosts, envs)
  }

  // It did not come to the removal.
  lemma WithoutRemoval(s: Standing, t: Standing, hosts: nat, envs: Replacement, v: Verdict)
    requires v == GrowVerdict(s, hosts, envs.growth) != Passed && t.healthy == s.healthy
    requires t.voters == s.voters + (if Seats(s, hosts, envs.growth) then 1 else 0)
    ensures IsReplacement(s, t, hosts, envs, v)
  {
  }

  // What the removal half leaves of n voters and a new one: with nobody to remove it raises.
  predicate IsRemoval(n: nat, t: Standing, env: Env, v: Verdict) {
    if n == 1 then v == Raised && t.voters == 2 && t.healthy
    else
      && v == Measured(env, Settles(env)) && t.voters == n + (if env.begun && env.reply.Accept? then 0 else 1)
      && (t.healthy <==> !env.begun || env.reply.Accept?)
  }

  lemma WithRemoval(s: Standing, t: Standing, hosts: nat, envs: Replacement, v: Verdict)
    requires GrowVerdict(s, hosts, envs.growth) == Passed && IsRemoval(s.voters, t, envs.remove, v)
    ensures IsReplacement(s, t, hosts, envs, v)
  {
    PassedGrowth(s, hosts, envs.growth);
  }

  // ------------------------------------------------------------- the whole gate

  const HOSTS: nat := 5
  const START := Standing(3, 3, true)

  // Everything the first two scenarios depend on.
  datatype Inputs = Inputs(
    start: Poll, polls: Two<Poll>, replace: Replacement,
    grow: Two<Growth>, shrink: Two<Shrinking>, dipsOk: Two<bool>)

  // What the replacement leaves to the resize.
  function AfterReplace(x: Inputs): Standing {
    if !x.polls.first.OneLeader? then START
    else Standing(START.voters + if LeavesOneOver(START, HOSTS, x.replace) then 1 else 0, START.members,
                  !LeavesOneDead(START, HOSTS, x.replace))
  }

  // The verdicts of the first two scenarios, ending where an exception escapes; none without a first leader.
  function FirstVerdicts(x: Inputs): seq<Verdict> {
    match x.start
    case NoLeader => []
    case SplitBrain => [Raised]
    case OneLeader =>
      var first := Scenario(x.polls.first, ReplaceVerdict(START, HOSTS, x.replace), x.dipsOk.first);
      if first == Raised then [Raised]
      else [first, ResizeVerdict(AfterReplace(x), HOSTS, x.polls.second, x.grow, x.shrink, x.dipsOk.second)]
  }

  lemma FirstIs(x: Inputs, v: Verdict)
    requires x.start.OneLeader? && v == Scenario(x.polls.first, ReplaceVerdict(START, HOSTS, x.replace), x.dipsOk.first)
    ensures v == Raised ==> FirstVerdicts(x) == [v]
  {
  }

  // The resize starts from what the replacement left.
  lemma SecondIs(x: Inputs, s: Standing, v: Verdict, w: Verdict)
    requires x.start.OneLeader? && v == Scenario(x.polls.first, ReplaceVerdict(START, HOSTS, x.replace), x.dipsOk.first)
    requires v != Raised && s.members <= 4
    requires if x.polls.first.OneLeader? then LeavesFrom(START, s, HOSTS, x.replace) else s == START
    requires w == ResizeVerdict(s, HOSTS, x.polls.second, x.grow, x.shrink, x.dipsOk.second)
    ensures FirstVerdicts(x) == [v, w]
  {
    RoomDecides(s, START.members, HOSTS, x.polls.second, x.grow, x.shrink, x.dipsOk.second);
    assert s.(members := START.members) == AfterReplace(x);
  }

  function ReplaceSteps(s: Standing, envs: Replacement): seq<(Env, bool)> {
    GrowSteps(s, envs.growth) + [(envs.remove, Settles(envs.remove))]
  }

  // MAIN RESULT.  An exception escapes the first two scenarios if and only if one of the three leader polls up to
  // there sees several leaders, or the measuring around a transition that is reached raises, or the resize runs
  // out of hosts.
  lemma GateRaisesIff(x: Inputs)
    ensures Raised in FirstVerdicts(x) <==>
            || x.start.SplitBrain?
            || (x.start.OneLeader? && x.polls.first.SplitBrain?)
            || (x.start.OneLeader? && x.polls.first.OneLeader? && Interrupted(ReplaceSteps(START, x.replace)))
            || (x.start.OneLeader? && ResizeRaises(AfterReplace(x), HOSTS, x.polls.second, x.grow, x.shrink))
  {
    var steps, last := GrowSteps(START, x.replace.growth), [(x.replace.remove, Settles(x.replace.remove))];
    TwoSteps(steps);
    SweepConcat(steps, last);
    assert last[1..] == [] && Sweep(last) == Measured(x.replace.remove, Settles(x.replace.remove));
    SweepRaisesIff(ReplaceSteps(START, x.replace));
    ResizeRaisesIff(AfterReplace(x), HOSTS, x.polls.second, x.grow, x.shrink, x.dipsOk.second);
  }

  // No measuring raises and no poll sees two leaders.
  predicate Calm(x: Inputs) {
    && !x.start.SplitBrain? && !x.polls.first.SplitBrain? && !x.polls.second.SplitBrain?
    && !Breaks(x.replace.growth.add) && !Breaks(x.replace.growth.promote) && !Breaks(x.replace.remove)
    && !Breaks(x.grow.first.add) && !Breaks(x.grow.first.promote)
    && !Breaks(x.grow.second.add) && !Breaks(x.grow.second.promote)
    && !Breaks(x.shrink.first.demote) && !Breaks(x.shrink.first.remove)
    && !Breaks(x.shrink.second.demote) && !Breaks(x.shrink.second.remove)
  }

  // The learner is added and catches up.
  predicate Added(g: Growth) {
    g.add == SMOOTH
  }

  // Its promotion is accepted, seen by every polled host, and measured.
  predicate Promoted(g: Growth) {
    Settles(g.promote) && g.promote.rate.Reading?
  }

  // The replacement's promotion is accepted but not seen in time, or not measured, and the resize's first
  // growth goes through.
  predicate OutOfHosts(x: Inputs) {
    && x.start.OneLeader? && x.polls == Two(OneLeader, OneLeader)
    && Added(x.replace.growth) && x.replace.growth.promote.reply.Accept? && !Promoted(x.replace.growth)
    && Added(x.grow.first) && Promoted(x.grow.first)
  }

  // MAIN RESULT.  Of the calm runs, exactly those run out of hosts: the replacement returns a failure and the
  // resize raises.  A refused removal is not among their causes: it leaves a dead voter in the map, and the
  // resize's first growth then never converges.
  lemma CalmGateRaisesIff(x: Inputs)
    requires Calm(x)
    ensures Raised in FirstVerdicts(x) <==> OutOfHosts(x)
    ensures OutOfHosts(x) ==> FirstVerdicts(x) == [Failed, Raised]
  {
    if x.start.OneLeader? {
      CalmReplacement(x);
      CalmResize(x, AfterReplace(x));
    }
  }

  lemma CalmReplacement(x: Inputs)
    requires Calm(x)
    ensures ReplaceVerdict(START, HOSTS, x.replace) != Raised
    ensures LeavesOneOver(START, HOSTS, x.replace) ==> ReplaceVerdict(START, HOSTS, x.replace) == Failed
    ensures LeavesOneOver(START, HOSTS, x.replace) && !LeavesOneDead(START, HOSTS, x.replace) <==>
            Added(x.replace.growth) && x.replace.growth.promote.reply.Accept? && !Promoted(x.replace.growth)
  {
  }

  lemma CalmResize(x: Inputs, s: Standing)
    requires Calm(x) && s.members == 3 && 3 <= s.voters <= 4
    ensures ResizeVerdict(s, HOSTS, x.polls.second, x.grow, x.shrink, x.dipsOk.second) == Raised <==>
            x.polls.second.OneLeader? && s.voters == 4 && s.healthy && Added(x.grow.first) && Promoted(x.grow.first)
  {
    ResizeRaisesIff(s, HOSTS, x.polls.second, x.grow, x.shrink, x.dipsOk.second);
    var steps := ResizeSteps(s, HOSTS, x.grow, x.shrink);
    forall k: nat ensures !InterruptedAt(steps, k) {
      assert k < |steps| ==> !Breaks(steps[k].0);
    }
    if s.voters == 4 {
      var g := x.grow.first;
      assert steps == GrowSteps(s, g);
      assert steps[0] == (g.add, Admits(s, g.add)) && steps[1] == (g.promote, Settles(g.promote));
    }
  }

  // ------------------------------------------------------------- when a scenario passes

  // Nothing goes wrong in a transition that waits for no catch-up.
  predicate Through(env: Env) {
    env.begun && env.reply.Accept? && env.converged && env.rate.Reading?
  }

  predicate GrowsThrough(g: Growth) {
    Through(g.add) && g.add.caughtUp && Through(g.promote)
  }

  predicate ShrinksThrough(env: Shrinking) {
    Through(env.demote) && Through(env.remove)
  }

  lemma GrowPassesIff(s: Standing, hosts: nat, envs: Growth)
    ensures GrowVerdict(s, hosts, envs) == Passed <==>
            s.voters < hosts && s.members < MAX_MEMBERS && s.healthy && GrowsThrough(envs)
  {
  }

  // MAIN RESULT.  A resize passes if and only if its poll found one leader, there are two free hosts and room for two
  // members, every voter's node is up, all eight transitions go through and the worst dip is within the bar.
  lemma ResizePassesIff(s: Standing, hosts: nat, poll: Poll, grow: Two<Growth>, shrink: Two<Shrinking>, dipsOk: bool)
    ensures ResizeVerdict(s, hosts, poll, grow, shrink, dipsOk) == Passed <==>
            && poll.OneLeader? && s.voters + 2 <= hosts && s.members + 2 <= MAX_MEMBERS && s.healthy
            && GrowsThrough(grow.first) && GrowsThrough(grow.second)
            && ShrinksThrough(shrink.first) && ShrinksThrough(shrink.second) && dipsOk
  {
    GrowPassesIff(s, hosts, grow.first);
    GrowPassesIff(Grown(s), hosts, grow.second);
  }

  // MAIN RESULT.  So does a replacement: one leader, a free host, room, a voter to replace, every node up, its three
  // transitions and the bar.
  lemma ReplacePassesIff(s: Standing, hosts: nat, poll: Poll, envs: Replacement, dipsOk: bool)
    ensures Scenario(poll, ReplaceVerdict(s, hosts, envs), dipsOk) == Passed <==>
            && poll.OneLeader? && s.voters < hosts && s.voters != 1 && s.members < MAX_MEMBERS && s.healthy
            && GrowsThrough(envs.growth) && Through(envs.remove) && dipsOk
  {
    GrowPassesIff(s, hosts, envs.growth);
  }

  // The self-removal passes exactly when all of its inputs are good, and raises exactly when its poll sees several
  // leaders, its request gets no answer, or the driver cannot follow a handover that took place.
  lemma SelfVerdictIs(poll: Poll, h: Handover, allowed: bool)
    ensures SelfVerdict(poll, h, allowed) == Passed <==>
            poll.OneLeader? && h.answered && h.reply.Accept? && allowed && h.taken && h.driverMoved && h.committing
    ensures SelfVerdict(poll, h, allowed) == Raised <==>
            || poll.SplitBrain? || (poll.OneLeader? && !h.answered)
            || (poll.OneLeader? && h.reply.Accept? && allowed && h.taken && !h.driverMoved)
  {
  }

  // MAIN RESULT.  The first two scenarios of the gate both pass if and only if every poll finds one leader, every
  // transition goes through and both dips are within the bar.
  lemma GatePassesIff(x: Inputs)
    ensures FirstVerdicts(x) == [Passed, Passed] <==>
            && x.start.OneLeader? && x.polls == Two(OneLeader, OneLeader) && x.dipsOk == Two(true, true)
            && GrowsThrough(x.replace.growth) && Through(x.replace.remove)
            && GrowsThrough(x.grow.first) && GrowsThrough(x.grow.second)
            && ShrinksThrough(x.shrink.first) && ShrinksThrough(x.shrink.second)
  {
    ReplacePassesIff(START, HOSTS, x.polls.first, x.replace, x.dipsOk.first);
    ResizePassesIff(AfterReplace(x), HOSTS, x.polls.second, x.grow, x.shrink, x.dipsOk.second);
    PassedLeaves(START, HOSTS, x.replace);
  }

  // A replacement that goes through leaves as many voters as there were, all up.
  lemma PassedLeaves(s: Standing, hosts: nat, envs: Replacement)
    requires s.voters > 1
    ensures ReplaceVerdict(s, hosts, envs) == Passed ==>
            !LeavesOneOver(s, hosts, envs) && !LeavesOneDead(s, hosts, envs)
  {
  }
}
