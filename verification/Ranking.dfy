/**
The leader's rank over its report slots gives the quorum its commit step needs.
 */
module Ranking {
  import opened ClusterConfig
  import T = CommitTracker
  import opened Protocol

  // The followers whose slot holds at least c.
  function SlotHolders(ids: seq<NodeId>, slots: seq<nat>, c: nat): set<NodeId>
    requires |ids| == |slots|
  {
    if ids == [] then {} else (if slots[0] >= c then {ids[0]} else {}) + SlotHolders(ids[1..], slots[1..], c)
  }

  ghost predicate Distinct(ids: seq<NodeId>) {
    forall i, j | 0 <= i < j < |ids| :: ids[i] != ids[j]
  }

  lemma {:induction false} SlotHoldersIs(ids: seq<NodeId>, slots: seq<nat>, c: nat)
    requires |ids| == |slots| && Distinct(ids)
    ensures |SlotHolders(ids, slots, c)| == T.Holders(slots, c)
    ensures forall j | j in SlotHolders(ids, slots, c) :: exists k | 0 <= k < |ids| :: ids[k] == j && slots[k] >= c
  {
    if ids != [] {
      SlotHoldersIs(ids[1..], slots[1..], c);
      var rest := SlotHolders(ids[1..], slots[1..], c);
      assert ids[0] !in rest;
      forall j | j in SlotHolders(ids, slots, c) ensures exists k | 0 <= k < |ids| :: ids[k] == j && slots[k] >= c {
        if j in rest {
          var k :| 0 <= k < |ids[1..]| && ids[1..][k] == j && slots[1..][k] >= c;
          assert ids[k + 1] == j && slots[k + 1] >= c;
        } else {
          assert ids[0] == j && slots[0] >= c;
        }
      }
    }
  }

  // The slot of a follower is empty, or holds a report in this term that the leader's history attests.
  ghost predicate SlotFits(s: State, term: nat, leader: Log, id: NodeId, slot: nat) {
    slot == 0 || exists r | r in s.reports ::
      r.term == term && r.node == id && r.length == slot && r.lastTerm == TermBelow(leader, slot)
  }

  lemma HolderCounts(s: State, i: NodeId, term: nat, leader: Log, id: NodeId, slot: nat, c: nat)
    requires SlotFits(s, term, leader, id, slot) && slot >= c >= 1
    ensures Counts(s, i, leader, term, c, id)
  {
  }

  // MAIN RESULT.  When the tracker's rank reaches c over slots filled from attested reports, and c covers the
  // leader's own term, the protocol's commit step is enabled at c with those holders.
  lemma RankEnablesCommit(s: State, i: NodeId, ids: seq<NodeId>, slots: seq<nat>, c: nat)
    requires i in s.nodes && s.nodes[i].role == Leader && s.nodes[i].term in s.reigns
    requires |ids| == |slots| && Distinct(ids) && i !in ids && s.nodes.Keys == {i} + set j | j in ids
    requires forall k | 0 <= k < |ids| :: SlotFits(s, s.nodes[i].term, s.reigns[s.nodes[i].term].log, ids[k], slots[k])
    requires c > s.nodes[i].commit && c > s.reigns[s.nodes[i].term].base
    requires T.QuorumHeld(|s.nodes[i].log|, slots, |s.nodes| / 2 + 1, c)
    ensures Can(s, Commit(i, c, {i} + SlotHolders(ids, slots, c)))
  {
    var n := s.nodes[i];
    SlotHoldersIs(ids, slots, c);
    var followers := SlotHolders(ids, slots, c);
    FollowersCount(s, i, n.term, s.reigns[n.term].log, ids, slots, c);
    HoldersAreMajority(s.nodes.Keys, i, followers, |n.log|, slots, c);
  }

  lemma FollowersCount(s: State, i: NodeId, term: nat, leader: Log, ids: seq<NodeId>, slots: seq<nat>, c: nat)
    requires |ids| == |slots| && Distinct(ids) && c >= 1
    requires forall k | 0 <= k < |ids| :: SlotFits(s, term, leader, ids[k], slots[k])
    ensures forall j | j in SlotHolders(ids, slots, c) :: j in ids && Counts(s, i, leader, term, c, j)
  {
    SlotHoldersIs(ids, slots, c);
    forall j | j in SlotHolders(ids, slots, c) ensures j in ids && Counts(s, i, leader, term, c, j) {
      var k :| 0 <= k < |ids| && ids[k] == j && slots[k] >= c;
      HolderCounts(s, i, term, leader, ids[k], slots[k], c);
    }
  }

  lemma HoldersAreMajority(all: set<NodeId>, i: NodeId, followers: set<NodeId>, own: nat, slots: seq<nat>, c: nat)
    requires i in all && i !in followers && followers <= all && |followers| == T.Holders(slots, c)
    requires own >= c && T.Holders([own] + slots, c) >= |all| / 2 + 1
    ensures IsMajority({i} + followers, all)
  {
    assert ([own] + slots)[1..] == slots;
    CardOfUnion({i}, followers);
  }
}
